/** The life of QoD sessions: creation with any PCF reply, extension, deletion, terminations and
    cleanup, as operations on the session store, and what every run of them keeps. */
module QodSessions {
  import opened Options
  import opened QodStores

  datatype Config = Config(
    minDuration: int,
    maxDuration: int,
    unavailableTtl: int,
    profileMax: map<string, int>,
    supported: set<string>,
    mapped: set<string>)

  /** `get_max_duration_for_profile`. */
  function MaxFor(c: Config, profile: string): int {
    if profile in c.profileMax then c.profileMax[profile] else c.maxDuration
  }

  datatype Request = Request(consumer: string, profile: string, duration: int, device: Option<Device>)

  predicate HasIdentifier(d: Option<Device>) {
    d.Some? && (d.value.phone.Some? || d.value.ipv4.Some? || d.value.ipv6.Some?)
  }

  /** `create_or_get_ue_key` succeeds. */
  predicate HasUeKey(x: Session) {
    x.device.Some? && (x.supi.Some? || HasIdentifier(x.device))
  }

  /** What the PCF answers to a creation. `NoReply` also stands for a missing service or destination
      and for an answer that cannot be read. */
  datatype CreateReply = NoReply | Created(pcfId: string) | Ended(pcfId: string) | Refused(message: string) | Unexpected

  /** What the PCF answers to a deletion. */
  datatype DeleteReply = Confirmed(pcfId: string) | NotConfirmed

  // === Operations ===

  /** The session once the PCF has accepted it. */
  function Accepted(x: Session, p: string, now: int): Session {
    x.(status := Available, pcfId := Some(p), startedAt := Some(now), expiresAt := Some(now + x.duration))
  }

  /** `handle_pcf_session_response`: the status the session has is not looked at. */
  function Respond(s: Store, id: string, pcfId: string, success: bool, message: string, now: int): Store {
    if id !in s.byId then s
    else
      var x := s.byId[id];
      if success then
        Update(s.(pcf := s.pcf[pcfId := id]), Accepted(x, pcfId, now))
      else
        Update(s, x.(status := Unavailable, info := Some(NetworkTerminated), error := Some(message)))
  }

  /** `handle_pcf_session_terminated`: the session is dropped, not kept as unavailable. */
  function Terminate(s: Store, pcfId: string): Store {
    if pcfId !in s.pcf || s.pcf[pcfId] !in s.byId then s
    else
      var x := s.byId[s.pcf[pcfId]];
      if x.status == Available && x.pduId.Some? && !HasUeKey(x) then s
      else Remove(s, x.id).(pcf := s.pcf - {pcfId})
  }

  predicate Acceptable(c: Config, r: Request) {
    r.profile in c.supported && c.minDuration <= r.duration <= MaxFor(c, r.profile) && r.profile in c.mapped
  }

  function NewSession(r: Request, id: string, supi: Option<string>, pduId: Option<string>, now: int): Session {
    Session(id, r.consumer, r.profile, r.duration, now, None, None, Requested, None, None, r.device,
            if r.device.Some? then supi else None, if r.device.Some? then pduId else None, None)
  }

  /** `apply_session_to_pcf` and what `create_session` does with its answer. */
  function Settle(s: Store, id: string, reply: CreateReply, now: int): Store {
    match reply
    case Created(pcfId) => Respond(s, id, pcfId, true, "", now)
    case Ended(pcfId) => Terminate(s, pcfId)
    case Refused(message) =>
      SetStatus(Respond(s, id, "", false, message, now), id, Unavailable, Some(NetworkTerminated))
    case _ => SetStatus(s, id, Unavailable, Some(NetworkTerminated))
  }

  /** `create_session`. The device lookup, the conflict check and the new id are inputs. */
  function Create(c: Config, s: Store, r: Request, id: string, supi: Option<string>, pduId: Option<string>,
                  conflict: bool, reply: CreateReply, now: int, later: int): Store {
    if !Acceptable(c, r) || (r.device.Some? && conflict) then s
    else Settle(Add(s, NewSession(r, id, supi, pduId, now)), id, reply, later)
  }

  datatype DeleteOutcome = DeleteNotFound | DeleteForbidden | DeleteFailed | NoUeKey | Deleted

  function DeleteOutcomeOf(s: Store, id: string, consumer: string, reply: DeleteReply): DeleteOutcome {
    if id !in s.byId then DeleteNotFound
    else if s.byId[id].consumer != consumer then DeleteForbidden
    else if s.byId[id].status == Available && s.byId[id].pcfId.Some? && reply.NotConfirmed? then DeleteFailed
    else if s.byId[id].pduId.Some? && !HasUeKey(s.byId[id]) then NoUeKey
    else Deleted
  }

  /** The PCF mapping after a confirmed removal; the reply names the mapping to drop. */
  function Unmapped(s: Store, x: Session, reply: DeleteReply): Store {
    if x.status == Available && x.pcfId.Some? && reply.Confirmed? then s.(pcf := s.pcf - {reply.pcfId}) else s
  }

  /** `delete_session`: the session stays readable as unavailable until the cleanup. */
  function Delete(s: Store, id: string, consumer: string, reply: DeleteReply, now: int): Store {
    match DeleteOutcomeOf(s, id, consumer, reply)
    case Deleted =>
      var x := s.byId[id];
      Update(Unmapped(s, x, reply), x.(status := Unavailable, info := Some(DeleteRequested), expiresAt := Some(now)))
    case NoUeKey => Unmapped(s, s.byId[id], reply)
    case _ => s
  }

  datatype ExtendOutcome = OutOfRange | ExtendNotFound | ExtendForbidden | WrongStatus | Undefined | Extended

  /** The request handler turns away extensions below one second; the manager then reads the start
      time, which a session that never started does not have (`Undefined`). */
  function ExtendOutcomeOf(s: Store, id: string, consumer: string, add: int): ExtendOutcome {
    if add < 1 then OutOfRange
    else if id !in s.byId then ExtendNotFound
    else if s.byId[id].consumer != consumer then ExtendForbidden
    else if s.byId[id].status == Unavailable then WrongStatus
    else if s.byId[id].startedAt.None? then Undefined
    else Extended
  }

  function Min(a: int, b: int): int {
    if a <= b then a else b
  }

  /** The start time as the extension reads it; `unset` is whatever an absent one yields. */
  function StartRead(x: Session, unset: int): int {
    if x.startedAt.Some? then x.startedAt.value else unset
  }

  /** `extend_session_duration`, the `Undefined` case included: it writes back like the other. */
  function Extend(c: Config, s: Store, id: string, consumer: string, add: int, unset: int): Store {
    if ExtendOutcomeOf(s, id, consumer, add) !in {Extended, Undefined} then s
    else
      var x := s.byId[id];
      var total := Min(x.duration + add, MaxFor(c, x.profile));
      Update(s, x.(duration := total, expiresAt := Some(StartRead(x, unset) + total)))
  }

  /** `handle_pdu_session_terminated_event`: one session of that SUPI and PDU session goes, whichever
      the set yields first. */
  predicate OnPdu(s: Store, supi: string, pduId: string, id: string) {
    id in IdsOf(s, supi) && id in s.byId && s.byId[id].pduId == Some(pduId)
  }

  /** `cleanup_expired_sessions`, one session at a time. */
  function RemoveEach(s: Store, ids: seq<string>): Store
    decreases ids
  {
    if ids == [] then s else RemoveEach(Remove(s, ids[0]), ids[1..])
  }

  /** `stop` clears the sessions and the SUPI index, not the PCF mapping. */
  function Clear(s: Store): Store {
    s.(byId := map[], bySupi := map[])
  }

  datatype Op =
    | DoCreate(r: Request, id: string, supi: Option<string>, pduId: Option<string>, conflict: bool,
               reply: CreateReply, now: int, later: int)
    | DoDelete(id: string, consumer: string, deleteReply: DeleteReply, now: int)
    | DoExtend(id: string, consumer: string, add: int, unset: int)
    | DoRespond(id: string, pcfId: string, success: bool, message: string, now: int)
    | DoTerminate(pcfId: string)
    | DoPduTerminated(id: string)
    | DoCleanup(now: int, order: seq<string>)
    | DoStop

  /** What the environment guarantees of a call: ids of new sessions are new (generated at random in
      the source), the device lookup finds something only by an identifier of the device, a PDU event
      names a session it matches, and a cleanup visits exactly the expired sessions, in some order. */
  predicate Proper(c: Config, s: Store, op: Op) {
    match op
    case DoCreate(r, id, supi, pduId, _, _, now, later) =>
      && id !in s.byId && id !in s.pcf.Values && now <= later
      && (supi.Some? || pduId.Some? ==> HasIdentifier(r.device))
    case DoPduTerminated(id) => id in s.byId
    case DoCleanup(now, order) => (set id | id in order) == ExpiredIds(s, now, c.unavailableTtl)
    case _ => true
  }

  /** A success answer comes for a session that is not over, and under no other PCF id than before. */
  predicate AnswerFits(s: Store, id: string, pcfId: string, success: bool) {
    success && id in s.byId ==>
      s.byId[id].status != Unavailable && forall q :: q in s.pcf && s.pcf[q] == id ==> q == pcfId
  }

  /** The guard of a call: an extension meets a session that has started, an answer one it fits. */
  predicate Guarded(s: Store, op: Op) {
    match op
    case DoExtend(id, consumer, add, _) => ExtendOutcomeOf(s, id, consumer, add) != Undefined
    case DoRespond(id, pcfId, success, _, _) => AnswerFits(s, id, pcfId, success)
    case _ => true
  }

  function Step(c: Config, s: Store, op: Op): Store {
    match op
    case DoCreate(r, id, supi, pduId, conflict, reply, now, later) => Create(c, s, r, id, supi, pduId, conflict, reply, now, later)
    case DoDelete(id, consumer, reply, now) => Delete(s, id, consumer, reply, now)
    case DoExtend(id, consumer, add, unset) => Extend(c, s, id, consumer, add, unset)
    case DoRespond(id, pcfId, success, message, now) => Respond(s, id, pcfId, success, message, now)
    case DoTerminate(pcfId) => Terminate(s, pcfId)
    case DoPduTerminated(id) => Remove(s, id)
    case DoCleanup(now, order) => RemoveEach(s, order)
    case DoStop => Clear(s)
  }

  // === The invariant ===

  predicate WithinLimits(c: Config, x: Session) {
    c.minDuration <= x.duration <= MaxFor(c, x.profile)
  }

  /** What a stored session looks like in each status. */
  predicate WellFormed(c: Config, x: Session) {
    && WithinLimits(c, x)
    && (x.pduId.Some? ==> HasUeKey(x))
    && (x.status == Requested ==> x.startedAt.None? && x.expiresAt.None? && x.pcfId.None? && x.info.None?)
    && (x.status == Available ==>
          x.startedAt.Some? && x.pcfId.Some? && x.info.None? && x.expiresAt == Some(x.startedAt.value + x.duration))
    && (x.status == Unavailable ==> x.info.Some?)
  }

  /** A PCF id leads to no session or to one that carries it. */
  ghost predicate Mapped(s: Store) {
    forall p :: p in s.pcf && s.pcf[p] in s.byId ==> s.byId[s.pcf[p]].pcfId == Some(p)
  }

  ghost predicate Inv(c: Config, s: Store) {
    && Keyed(s) && Indexed(s) && Mapped(s)
    && forall id :: id in s.byId ==> WellFormed(c, s.byId[id])
  }

  lemma InvEmpty(c: Config)
    ensures Inv(c, EMPTY)
  {
  }

  lemma OverwriteInv(c: Config, s: Store, x: Session)
    requires Inv(c, s) && x.id in s.byId && x.supi == s.byId[x.id].supi && WellFormed(c, x)
    requires x.pcfId == s.byId[x.id].pcfId
    ensures Inv(c, Update(s, x))
  {
    UpdateIndexedIff(s, x);
  }

  lemma UnmapInv(c: Config, s: Store, p: string)
    requires Inv(c, s)
    ensures Inv(c, s.(pcf := s.pcf - {p}))
  {
  }

  lemma RemoveInv(c: Config, s: Store, id: string)
    requires Inv(c, s)
    ensures Inv(c, Remove(s, id))
  {
    RemoveIndexed(s, id);
  }

  lemma TerminateInv(c: Config, s: Store, p: string)
    requires Inv(c, s)
    ensures Inv(c, Terminate(s, p))
  {
    if p in s.pcf && s.pcf[p] in s.byId {
      RemoveInv(c, s, s.pcf[p]);
      UnmapInv(c, Remove(s, s.pcf[p]), p);
    }
  }

  /** An answer keeps the invariant exactly when it fits. */
  lemma RespondInvIff(c: Config, s: Store, id: string, p: string, success: bool, message: string, now: int)
    requires Inv(c, s)
    ensures Inv(c, Respond(s, id, p, success, message, now)) <==> AnswerFits(s, id, p, success)
  {
    if id in s.byId {
      if success {
        AcceptInvIff(c, s, id, p, message, now);
      } else {
        OverwriteInv(c, s, s.byId[id].(status := Unavailable, info := Some(NetworkTerminated), error := Some(message)));
      }
    }
  }

  lemma AcceptedWellFormedIff(c: Config, x: Session, p: string, now: int)
    requires WellFormed(c, x)
    ensures WellFormed(c, Accepted(x, p, now)) <==> x.status != Unavailable
  {
  }

  /** One session rewritten and one PCF id led to it. */
  lemma RemapInvIff(c: Config, s: Store, y: Session, p: string)
    requires Inv(c, s) && y.id in s.byId && y.supi == s.byId[y.id].supi && y.pcfId == Some(p)
    ensures Inv(c, Store(s.byId[y.id := y], s.bySupi, s.pcf[p := y.id])) <==>
            WellFormed(c, y) && forall q :: q in s.pcf && s.pcf[q] == y.id ==> q == p
  {
    var t := Store(s.byId[y.id := y], s.bySupi, s.pcf[p := y.id]);
    UpdateIndexedIff(s, y);
    assert Indexed(t);
    if q :| q in s.pcf && s.pcf[q] == y.id && q != p {
      assert t.pcf[q] == y.id && !Mapped(t);
    }
    assert t.byId[y.id] == y;
  }

  lemma AcceptInvIff(c: Config, s: Store, id: string, p: string, message: string, now: int)
    requires Inv(c, s) && id in s.byId
    ensures Inv(c, Respond(s, id, p, true, message, now)) <==> AnswerFits(s, id, p, true)
  {
    var y := Accepted(s.byId[id], p, now);
    assert Respond(s, id, p, true, message, now) == Store(s.byId[id := y], s.bySupi, s.pcf[p := id]);
    AcceptedWellFormedIff(c, s.byId[id], p, now);
    RemapInvIff(c, s, y, p);
  }

  lemma AddInv(c: Config, s: Store, x: Session)
    requires Inv(c, s) && x.id !in s.byId && x.id !in s.pcf.Values && WellFormed(c, x)
    ensures Inv(c, Add(s, x))
  {
    AddIndexedIff(s, x);
  }

  lemma SettleInv(c: Config, s: Store, id: string, reply: CreateReply, now: int)
    requires Inv(c, s) && id in s.byId && s.byId[id].status == Requested && id !in s.pcf.Values
    ensures Inv(c, Settle(s, id, reply, now))
  {
    var down := s.byId[id].(status := Unavailable, info := Some(NetworkTerminated));
    match reply
    case Created(p) => AcceptInvIff(c, s, id, p, "", now);
    case Ended(p) => TerminateInv(c, s, p);
    case Refused(message) =>
      OverwriteInv(c, s, down.(error := Some(message)));
      OverwriteInv(c, Update(s, down.(error := Some(message))), down.(error := Some(message)));
    case _ => OverwriteInv(c, s, down);
  }

  lemma CreateInv(c: Config, s: Store, op: Op)
    requires Inv(c, s) && op.DoCreate? && Proper(c, s, op)
    ensures Inv(c, Step(c, s, op))
  {
    if Acceptable(c, op.r) && !(op.r.device.Some? && op.conflict) {
      var x := NewSession(op.r, op.id, op.supi, op.pduId, op.now);
      AddInv(c, s, x);
      SettleInv(c, Add(s, x), op.id, op.reply, op.later);
    }
  }

  /** Settling one session changes no other one; only an `Ended` reply can drop another. */
  lemma SettleOthers(s: Store, id: string, reply: CreateReply, now: int, other: string)
    requires Keyed(s) && other in s.byId && other != id
    ensures other in Settle(s, id, reply, now).byId ==> Settle(s, id, reply, now).byId[other] == s.byId[other]
    ensures !(reply.Ended? && reply.pcfId in s.pcf && s.pcf[reply.pcfId] == other) ==>
              other in Settle(s, id, reply, now).byId
  {
  }

  /** Visiting expired sessions in any order removes just them and keeps the index exact. */
  lemma {:induction false} RemoveEachFacts(s: Store, ids: seq<string>)
    requires Indexed(s)
    ensures RemoveEach(s, ids).byId == s.byId - set id | id in ids
    ensures RemoveEach(s, ids).pcf == s.pcf
    ensures Indexed(RemoveEach(s, ids))
    decreases ids
  {
    if ids != [] {
      RemoveIndexed(s, ids[0]);
      RemoveEachFacts(Remove(s, ids[0]), ids[1..]);
      assert (set id | id in ids) == {ids[0]} + set id | id in ids[1..];
    }
  }

  /** The order of a cleanup does not matter. */
  lemma CleanupOrder(s: Store, one: seq<string>, two: seq<string>)
    requires Indexed(s) && (set id | id in one) == (set id | id in two)
    ensures RemoveEach(s, one) == RemoveEach(s, two)
  {
    RemoveEachFacts(s, one);
    RemoveEachFacts(s, two);
  }

  lemma DeleteInv(c: Config, s: Store, id: string, consumer: string, reply: DeleteReply, now: int)
    requires Inv(c, s)
    ensures Inv(c, Delete(s, id, consumer, reply, now))
  {
    if DeleteOutcomeOf(s, id, consumer, reply).Deleted? {
      var x := s.byId[id];
      if reply.Confirmed? {
        UnmapInv(c, s, reply.pcfId);
      }
      OverwriteInv(c, Unmapped(s, x, reply), x.(status := Unavailable, info := Some(DeleteRequested), expiresAt := Some(now)));
    }
  }

  /** An extension keeps the invariant exactly when the session, if extended, has started: on a
      requested one it leaves an expiry behind, whatever the absent start time yields. */
  lemma ExtendInvIff(c: Config, s: Store, id: string, consumer: string, add: int, unset: int)
    requires Inv(c, s)
    ensures Inv(c, Extend(c, s, id, consumer, add, unset)) <==> ExtendOutcomeOf(s, id, consumer, add) != Undefined
  {
    var t := Extend(c, s, id, consumer, add, unset);
    if ExtendOutcomeOf(s, id, consumer, add) == Extended {
      OverwriteInv(c, s, t.byId[id]);
    } else if ExtendOutcomeOf(s, id, consumer, add) == Undefined {
      assert WellFormed(c, s.byId[id]);
      assert !WellFormed(c, t.byId[id]);
    }
  }

  /** Every operation keeps the invariant exactly when its guard holds: only an extension of a session
      that has not started and an answer that does not fit break it. */
  lemma InvStepIff(c: Config, s: Store, op: Op)
    requires Inv(c, s) && Proper(c, s, op)
    ensures Inv(c, Step(c, s, op)) <==> Guarded(s, op)
  {
    match op
    case DoCreate(_, _, _, _, _, _, _, _) => CreateInv(c, s, op);
    case DoDelete(id, consumer, reply, now) => DeleteInv(c, s, id, consumer, reply, now);
    case DoExtend(id, consumer, add, unset) => ExtendInvIff(c, s, id, consumer, add, unset);
    case DoRespond(id, p, success, message, now) => RespondInvIff(c, s, id, p, success, message, now);
    case DoTerminate(p) => TerminateInv(c, s, p);
    case DoPduTerminated(id) => RemoveInv(c, s, id);
    case DoCleanup(now, order) => RemoveEachFacts(s, order);
    case DoStop =>
  }

  // === Runs ===

  predicate ProperRun(c: Config, s: Store, ops: seq<Op>)
    decreases ops
  {
    ops != [] ==> Proper(c, s, ops[0]) && ProperRun(c, Step(c, s, ops[0]), ops[1..])
  }

  function Run(c: Config, s: Store, ops: seq<Op>): Store
    decreases ops
  {
    if ops == [] then s else Run(c, Step(c, s, ops[0]), ops[1..])
  }

  /** Every call of the run meets its guard. */
  predicate GuardedRun(c: Config, s: Store, ops: seq<Op>)
    decreases ops
  {
    ops != [] ==> Guarded(s, ops[0]) && GuardedRun(c, Step(c, s, ops[0]), ops[1..])
  }

  /** Every store along the run meets the invariant. */
  ghost predicate InvAlong(c: Config, s: Store, ops: seq<Op>)
    decreases ops
  {
    Inv(c, s) && (ops != [] ==> InvAlong(c, Step(c, s, ops[0]), ops[1..]))
  }

  /** A run with any PCF answers meets the invariant throughout exactly when every call meets its
      guard. */
  lemma {:induction false} InvRunIff(c: Config, s: Store, ops: seq<Op>)
    requires Inv(c, s) && ProperRun(c, s, ops)
    ensures InvAlong(c, s, ops) <==> GuardedRun(c, s, ops)
    decreases ops
  {
    if ops != [] {
      InvStepIff(c, s, ops[0]);
      if Guarded(s, ops[0]) {
        InvRunIff(c, Step(c, s, ops[0]), ops[1..]);
      } else {
        assert !InvAlong(c, Step(c, s, ops[0]), ops[1..]);
      }
    }
  }

  lemma {:induction false} InvRun(c: Config, s: Store, ops: seq<Op>)
    requires Inv(c, s) && ProperRun(c, s, ops) && GuardedRun(c, s, ops)
    ensures Inv(c, Run(c, s, ops))
    decreases ops
  {
    if ops != [] {
      InvStepIff(c, s, ops[0]);
      InvRun(c, Step(c, s, ops[0]), ops[1..]);
    }
  }

  // === What no call can break ===

  /** Durations within the limits and the SUPI index equal to the grouping. */
  ghost predicate Bounded(c: Config, s: Store) {
    && Keyed(s) && Indexed(s)
    && forall id :: id in s.byId ==> WithinLimits(c, s.byId[id])
  }

  lemma OverwriteBounded(c: Config, s: Store, x: Session)
    requires Bounded(c, s) && x.id in s.byId && x.supi == s.byId[x.id].supi && WithinLimits(c, x)
    ensures Bounded(c, Update(s, x))
  {
    UpdateIndexedIff(s, x);
  }

  lemma RemappedBounded(c: Config, s: Store, pcf: map<string, string>)
    requires Bounded(c, s)
    ensures Bounded(c, s.(pcf := pcf))
  {
  }

  lemma RemoveBounded(c: Config, s: Store, id: string)
    requires Bounded(c, s)
    ensures Bounded(c, Remove(s, id))
  {
    RemoveIndexed(s, id);
  }

  lemma RespondBounded(c: Config, s: Store, id: string, p: string, success: bool, message: string, now: int)
    requires Bounded(c, s)
    ensures Bounded(c, Respond(s, id, p, success, message, now))
  {
    if id in s.byId {
      var x := s.byId[id];
      RemappedBounded(c, s, s.pcf[p := id]);
      OverwriteBounded(c, if success then s.(pcf := s.pcf[p := id]) else s, Respond(s, id, p, success, message, now).byId[id]);
    }
  }

  lemma TerminateBounded(c: Config, s: Store, p: string)
    requires Bounded(c, s)
    ensures Bounded(c, Terminate(s, p))
  {
    if p in s.pcf && s.pcf[p] in s.byId {
      RemoveBounded(c, s, s.pcf[p]);
      RemappedBounded(c, Remove(s, s.pcf[p]), s.pcf - {p});
    }
  }

  lemma SetStatusBounded(c: Config, s: Store, id: string, status: Status, info: Option<StatusInfo>)
    requires Bounded(c, s)
    ensures Bounded(c, SetStatus(s, id, status, info))
  {
    if id in s.byId {
      OverwriteBounded(c, s, SetStatus(s, id, status, info).byId[id]);
    }
  }

  lemma SettleBounded(c: Config, s: Store, id: string, reply: CreateReply, now: int)
    requires Bounded(c, s)
    ensures Bounded(c, Settle(s, id, reply, now))
  {
    match reply
    case Created(p) => RespondBounded(c, s, id, p, true, "", now);
    case Ended(p) => TerminateBounded(c, s, p);
    case Refused(message) =>
      RespondBounded(c, s, id, "", false, message, now);
      SetStatusBounded(c, Respond(s, id, "", false, message, now), id, Unavailable, Some(NetworkTerminated));
    case _ => SetStatusBounded(c, s, id, Unavailable, Some(NetworkTerminated));
  }

  lemma CreateBounded(c: Config, s: Store, op: Op)
    requires Bounded(c, s) && op.DoCreate? && Proper(c, s, op)
    ensures Bounded(c, Step(c, s, op))
  {
    if Acceptable(c, op.r) && !(op.r.device.Some? && op.conflict) {
      var x := NewSession(op.r, op.id, op.supi, op.pduId, op.now);
      AddIndexedIff(s, x);
      SettleBounded(c, Add(s, x), op.id, op.reply, op.later);
    }
  }

  lemma DeleteBounded(c: Config, s: Store, id: string, consumer: string, reply: DeleteReply, now: int)
    requires Bounded(c, s)
    ensures Bounded(c, Delete(s, id, consumer, reply, now))
  {
    if id in s.byId {
      var t := Unmapped(s, s.byId[id], reply);
      assert t == s.(pcf := t.pcf);
      RemappedBounded(c, s, t.pcf);
      if DeleteOutcomeOf(s, id, consumer, reply).Deleted? {
        OverwriteBounded(c, t, Delete(s, id, consumer, reply, now).byId[id]);
      }
    }
  }

  lemma ExtendBounded(c: Config, s: Store, id: string, consumer: string, add: int, unset: int)
    requires Bounded(c, s)
    ensures Bounded(c, Extend(c, s, id, consumer, add, unset))
  {
    if ExtendOutcomeOf(s, id, consumer, add) in {Extended, Undefined} {
      OverwriteBounded(c, s, Extend(c, s, id, consumer, add, unset).byId[id]);
    }
  }

  lemma StepBounded(c: Config, s: Store, op: Op)
    requires Bounded(c, s) && Proper(c, s, op)
    ensures Bounded(c, Step(c, s, op))
  {
    match op
    case DoCreate(_, _, _, _, _, _, _, _) => CreateBounded(c, s, op);
    case DoDelete(id, consumer, reply, now) => DeleteBounded(c, s, id, consumer, reply, now);
    case DoExtend(id, consumer, add, unset) => ExtendBounded(c, s, id, consumer, add, unset);
    case DoRespond(id, p, success, message, now) => RespondBounded(c, s, id, p, success, message, now);
    case DoTerminate(p) => TerminateBounded(c, s, p);
    case DoPduTerminated(id) => RemoveBounded(c, s, id);
    case DoCleanup(now, order) => RemoveEachFacts(s, order);
    case DoStop =>
  }

  /** Guard or no guard: every run keeps durations within the limits and the SUPI index exact. */
  lemma {:induction false} RunBounded(c: Config, s: Store, ops: seq<Op>)
    requires Bounded(c, s) && ProperRun(c, s, ops)
    ensures Bounded(c, Run(c, s, ops))
    decreases ops
  {
    if ops != [] {
      StepBounded(c, s, ops[0]);
      RunBounded(c, Step(c, s, ops[0]), ops[1..]);
    }
  }

  /** After any run from the empty store durations are permitted and lookup by SUPI finds what a scan
      finds; after a guarded one each session also has the fields its status demands. */
  lemma AfterAnyRun(c: Config, ops: seq<Op>, id: string, supi: string)
    requires ProperRun(c, EMPTY, ops)
    ensures var t := Run(c, EMPTY, ops);
            && IdsOf(t, supi) == Members(t.byId, supi)
            && (id in t.byId ==> t.byId[id].id == id && WithinLimits(c, t.byId[id]))
            && (id in t.byId && GuardedRun(c, EMPTY, ops) ==> WellFormed(c, t.byId[id]))
  {
    InvEmpty(c);
    RunBounded(c, EMPTY, ops);
    GroupedIds(Run(c, EMPTY, ops), supi);
    if GuardedRun(c, EMPTY, ops) {
      InvRun(c, EMPTY, ops);
    }
  }

  // === Forward only ===

  function Rank(status: Status): nat {
    match status
    case Requested => 0
    case Available => 1
    case Unavailable => 2
  }

  /** What never changes about a session, and in which direction its status goes. */
  predicate Follows(x: Session, y: Session) {
    && y.id == x.id && y.consumer == x.consumer && y.profile == x.profile && y.createdAt == x.createdAt
    && y.device == x.device && y.supi == x.supi && y.pduId == x.pduId
    && Rank(x.status) <= Rank(y.status)
    && (x.startedAt.Some? ==> y.startedAt == x.startedAt)
    && (x.status == Available == y.status ==> x.duration <= y.duration)
  }

  lemma DeleteForward(s: Store, id: string, consumer: string, reply: DeleteReply, now: int, other: string)
    requires Keyed(s) && other in s.byId
    ensures other in Delete(s, id, consumer, reply, now).byId
    ensures Follows(s.byId[other], Delete(s, id, consumer, reply, now).byId[other])
  {
  }

  lemma ExtendForward(c: Config, s: Store, id: string, consumer: string, add: int, unset: int, other: string)
    requires Keyed(s) && other in s.byId && s.byId[other].duration <= MaxFor(c, s.byId[other].profile)
    ensures other in Extend(c, s, id, consumer, add, unset).byId
    ensures Follows(s.byId[other], Extend(c, s, id, consumer, add, unset).byId[other])
  {
  }

  lemma CreateForward(c: Config, s: Store, op: Op, id: string)
    requires Keyed(s) && op.DoCreate? && Proper(c, s, op) && id in s.byId
    ensures id in Step(c, s, op).byId ==> Step(c, s, op).byId[id] == s.byId[id]
    ensures !(op.reply.Ended? && op.reply.pcfId in s.pcf && s.pcf[op.reply.pcfId] == id) ==> id in Step(c, s, op).byId
  {
    var added := Add(s, NewSession(op.r, op.id, op.supi, op.pduId, op.now));
    assert Keyed(added);
    SettleOthers(added, op.id, op.reply, op.later, id);
  }

  /** A success answer for the session comes before it is over, and restarts it at no other time. */
  predicate InTime(s: Store, op: Op, id: string)
    requires id in s.byId
  {
    op.DoRespond? && op.id == id && op.success ==>
      s.byId[id].status != Unavailable && (s.byId[id].startedAt.Some? ==> s.byId[id].startedAt == Some(op.now))
  }

  lemma RespondForwardIff(s: Store, op: Op, id: string)
    requires Keyed(s) && op.DoRespond? && id in s.byId
    ensures var t := Respond(s, op.id, op.pcfId, op.success, op.message, op.now);
            id in t.byId && (Follows(s.byId[id], t.byId[id]) <==> InTime(s, op, id))
  {
  }

  /** Each operation moves a session forward, except an answer that is not in time. */
  lemma StepForwardIff(c: Config, s: Store, op: Op, id: string)
    requires Bounded(c, s) && Proper(c, s, op) && id in s.byId && id in Step(c, s, op).byId
    ensures Follows(s.byId[id], Step(c, s, op).byId[id]) <==> InTime(s, op, id)
  {
    match op
    case DoCreate(_, _, _, _, _, _, _, _) => CreateForward(c, s, op, id);
    case DoDelete(target, consumer, reply, now) => DeleteForward(s, target, consumer, reply, now, id);
    case DoExtend(target, consumer, add, unset) =>
      assert WithinLimits(c, s.byId[id]);
      ExtendForward(c, s, target, consumer, add, unset, id);
    case DoRespond(_, _, _, _, _) => RespondForwardIff(s, op, id);
    case DoCleanup(_, order) => RemoveEachFacts(s, order);
    case _ =>
  }

  /** The session id is stored after every operation of the run. */
  ghost predicate Stays(c: Config, s: Store, ops: seq<Op>, id: string)
    decreases ops
  {
    id in s.byId && (ops != [] ==> Stays(c, Step(c, s, ops[0]), ops[1..], id))
  }

  /** Every answer of the run for the session is in time. */
  ghost predicate InTimeRun(c: Config, s: Store, ops: seq<Op>, id: string)
    requires Stays(c, s, ops, id)
    decreases ops
  {
    ops != [] ==>
      var next := Step(c, s, ops[0]);
      InTime(s, ops[0], id) && Stays(c, next, ops[1..], id) && InTimeRun(c, next, ops[1..], id)
  }

  /** Every step of the run moves the session forward. */
  ghost predicate ForwardAlong(c: Config, s: Store, ops: seq<Op>, id: string)
    requires Stays(c, s, ops, id)
    decreases ops
  {
    ops != [] ==>
      var next := Step(c, s, ops[0]);
      Stays(c, next, ops[1..], id) && Follows(s.byId[id], next.byId[id]) && ForwardAlong(c, next, ops[1..], id)
  }

  /** While a session stays stored, every step moves it forward exactly when every answer for it is in
      time. */
  lemma {:induction false} RunForwardIff(c: Config, s: Store, ops: seq<Op>, id: string)
    requires Bounded(c, s) && ProperRun(c, s, ops) && Stays(c, s, ops, id)
    ensures ForwardAlong(c, s, ops, id) <==> InTimeRun(c, s, ops, id)
    decreases ops
  {
    if ops != [] {
      StepForwardIff(c, s, ops[0], id);
      StepBounded(c, s, ops[0]);
      RunForwardIff(c, Step(c, s, ops[0]), ops[1..], id);
    }
  }

  /** Then its status only moves forward over the whole run, its identity and SUPI never change, and
      while available it never gets shorter. */
  lemma {:induction false} RunForward(c: Config, s: Store, ops: seq<Op>, id: string)
    requires Bounded(c, s) && ProperRun(c, s, ops) && Stays(c, s, ops, id) && InTimeRun(c, s, ops, id)
    ensures id in Run(c, s, ops).byId && Follows(s.byId[id], Run(c, s, ops).byId[id])
    decreases ops
  {
    if ops != [] {
      StepForwardIff(c, s, ops[0], id);
      StepBounded(c, s, ops[0]);
      RunForward(c, Step(c, s, ops[0]), ops[1..], id);
    }
  }

  /** A late answer: the creation gets no reply and the session is over; a success that comes
      afterwards makes it available again, with the reason it ended for still there. */
  lemma LateAnswer(c: Config, r: Request, id: string, p: string, now: int, later: int)
    requires Acceptable(c, r) && r.device.None? && now <= later
    ensures var s := Step(c, EMPTY, DoCreate(r, id, None, None, false, NoReply, now, now));
            var t := Step(c, s, DoRespond(id, p, true, "", later));
            && Inv(c, s) && id in s.byId && s.byId[id].status == Unavailable
            && id in t.byId && t.byId[id].status == Available && t.byId[id].info.Some?
            && !Inv(c, t) && !Follows(s.byId[id], t.byId[id])
  {
    var create := DoCreate(r, id, None, None, false, NoReply, now, now);
    InvEmpty(c);
    InvStepIff(c, EMPTY, create);
    RespondInvIff(c, Step(c, EMPTY, create), id, p, true, "", later);
  }

  // === Branches that reachable stores rule out ===

  /** Under the invariant no deletion or termination is given up for want of a UE key, and an
      extension is undefined exactly on a session that is still requested. */
  lemma GuardsUnderInv(c: Config, s: Store, id: string, consumer: string, reply: DeleteReply, add: int)
    requires Inv(c, s)
    ensures DeleteOutcomeOf(s, id, consumer, reply) != NoUeKey
    ensures ExtendOutcomeOf(s, id, consumer, add) == Undefined ==> s.byId[id].status == Requested
    ensures id in s.byId && s.byId[id].consumer == consumer && add >= 1 && s.byId[id].status == Requested ==>
              ExtendOutcomeOf(s, id, consumer, add) == Undefined
    ensures forall p :: p in s.pcf && s.pcf[p] in s.byId ==>
              s.pcf[p] !in Terminate(s, p).byId && p !in Terminate(s, p).pcf
  {
    forall p | p in s.pcf && s.pcf[p] in s.byId
      ensures s.pcf[p] !in Terminate(s, p).byId && p !in Terminate(s, p).pcf
    {
      assert WellFormed(c, s.byId[s.pcf[p]]);
    }
  }

  // === Extensions ===

  /** Extensions one after the other; `unset` is not read while the session has a start time. */
  function ExtendAll(c: Config, s: Store, id: string, consumer: string, adds: seq<int>, unset: int): Store
    decreases adds
  {
    if adds == [] then s else ExtendAll(c, Extend(c, s, id, consumer, adds[0], unset), id, consumer, adds[1..], unset)
  }

  function Sum(adds: seq<int>): int {
    if adds == [] then 0 else adds[0] + Sum(adds[1..])
  }

  predicate AllPositive(adds: seq<int>) {
    forall i :: 0 <= i < |adds| ==> adds[i] >= 1
  }

  /** The store with the session's duration set to total and its expiry to match. */
  function Retimed(s: Store, id: string, total: int): Store
    requires id in s.byId && s.byId[id].startedAt.Some?
  {
    var x := s.byId[id];
    s.(byId := s.byId[id := x.(duration := total, expiresAt := Some(x.startedAt.value + total))])
  }

  /** An available, well-formed session of this consumer. */
  predicate Extendable(c: Config, s: Store, id: string, consumer: string) {
    && id in s.byId && s.byId[id].id == id && WellFormed(c, s.byId[id])
    && s.byId[id].status == Available && s.byId[id].consumer == consumer
  }

  lemma ExtendOnce(c: Config, s: Store, id: string, consumer: string, add: int, unset: int)
    requires Extendable(c, s, id, consumer) && add >= 1
    ensures var t := Extend(c, s, id, consumer, add, unset);
            && t == Retimed(s, id, Min(s.byId[id].duration + add, MaxFor(c, s.byId[id].profile)))
            && Extendable(c, t, id, consumer)
  {
  }

  lemma RetimedTwice(s: Store, id: string, a: int, b: int)
    requires id in s.byId && s.byId[id].startedAt.Some?
    ensures Retimed(Retimed(s, id, a), id, b) == Retimed(s, id, b)
  {
  }

  /** Any number of extensions of an available session amounts to one capped sum: only their total
      counts, not their order or grouping, and the expiry follows. */
  lemma {:induction false} ExtensionsAddUp(c: Config, s: Store, id: string, consumer: string, adds: seq<int>, unset: int)
    requires Extendable(c, s, id, consumer) && AllPositive(adds)
    ensures var total := Min(s.byId[id].duration + Sum(adds), MaxFor(c, s.byId[id].profile));
            ExtendAll(c, s, id, consumer, adds, unset) == Retimed(s, id, total) && total >= s.byId[id].duration
    decreases adds
  {
    var x := s.byId[id];
    if adds == [] {
      assert s.byId[id := x] == s.byId;
    } else {
      var first := Min(x.duration + adds[0], MaxFor(c, x.profile));
      var total := Min(x.duration + Sum(adds), MaxFor(c, x.profile));
      ExtendOnce(c, s, id, consumer, adds[0], unset);
      ExtensionsAddUp(c, Retimed(s, id, first), id, consumer, adds[1..], unset);
      SumNonNegative(adds[1..]);
      RetimedTwice(s, id, first, total);
    }
  }

  lemma {:induction false} SumNonNegative(adds: seq<int>)
    requires AllPositive(adds)
    ensures Sum(adds) >= 0
  {
    if adds != [] {
      SumNonNegative(adds[1..]);
    }
  }

  // === Soft deletion ===

  /** The operation neither ends the session itself nor cleans up at or after the given time. */
  predicate Spares(c: Config, s: Store, op: Op, id: string, until: int) {
    match op
    case DoCreate(_, _, _, _, _, reply, _, _) =>
      reply.Ended? && reply.pcfId in s.pcf ==> s.pcf[reply.pcfId] != id
    case DoDelete(other, _, _, _) => other != id
    case DoExtend(_, _, _, _) => true
    case DoRespond(other, _, _, _, _) => other != id
    case DoTerminate(pcfId) => pcfId in s.pcf ==> s.pcf[pcfId] != id
    case DoPduTerminated(other) => other != id
    case DoCleanup(now, _) => now < until
    case DoStop => false
  }

  predicate SparingRun(c: Config, s: Store, ops: seq<Op>, id: string, until: int)
    decreases ops
  {
    ops != [] ==> Spares(c, s, ops[0], id, until) && SparingRun(c, Step(c, s, ops[0]), ops[1..], id, until)
  }

  lemma DeleteOthers(s: Store, id: string, consumer: string, reply: DeleteReply, now: int, other: string)
    requires Keyed(s) && other in s.byId && other != id
    ensures other in Delete(s, id, consumer, reply, now).byId
    ensures Delete(s, id, consumer, reply, now).byId[other] == s.byId[other]
  {
  }

  lemma ExtendOthers(c: Config, s: Store, id: string, consumer: string, add: int, unset: int, other: string)
    requires Keyed(s) && other in s.byId && s.byId[other].status == Unavailable
    ensures other in Extend(c, s, id, consumer, add, unset).byId
    ensures Extend(c, s, id, consumer, add, unset).byId[other] == s.byId[other]
  {
  }

  lemma SparedStep(c: Config, s: Store, op: Op, id: string, t: int)
    requires Bounded(c, s) && Proper(c, s, op) && Spares(c, s, op, id, t + c.unavailableTtl)
    requires id in s.byId && s.byId[id].status == Unavailable && s.byId[id].expiresAt == Some(t)
    ensures id in Step(c, s, op).byId && Step(c, s, op).byId[id] == s.byId[id]
  {
    match op
    case DoCreate(_, _, _, _, _, _, _, _) => CreateForward(c, s, op, id);
    case DoDelete(target, consumer, reply, now) => DeleteOthers(s, target, consumer, reply, now, id);
    case DoExtend(target, consumer, add, unset) => ExtendOthers(c, s, target, consumer, add, unset, id);
    case DoRespond(_, _, _, _, _) => RespondForwardIff(s, op, id);
    case DoCleanup(now, order) =>
      RemoveEachFacts(s, order);
      assert id !in ExpiredIds(s, now, c.unavailableTtl);
    case _ =>
  }

  /** A session deleted at time t stays readable, unchanged, through any run that has no cleanup at or
      after t + TTL, no repeated deletion, no termination of it, no answer for it and no stop. */
  lemma {:induction false} DeletedStaysReadable(c: Config, s: Store, ops: seq<Op>, id: string, t: int)
    requires Bounded(c, s) && ProperRun(c, s, ops)
    requires SparingRun(c, s, ops, id, t + c.unavailableTtl)
    requires id in s.byId && s.byId[id].status == Unavailable && s.byId[id].expiresAt == Some(t)
    ensures id in Run(c, s, ops).byId && Run(c, s, ops).byId[id] == s.byId[id]
    decreases ops
  {
    if ops != [] {
      SparedStep(c, s, ops[0], id, t);
      StepBounded(c, s, ops[0]);
      DeletedStaysReadable(c, Step(c, s, ops[0]), ops[1..], id, t);
    }
  }

  /** The life of a deletion: accepted at t, readable as DELETE_REQUESTED until then, and gone with
      its index entry at the first cleanup from t + TTL on. */
  lemma DeletionLifetime(c: Config, s: Store, id: string, consumer: string, reply: DeleteReply, t: int,
                         ops: seq<Op>, now: int, order: seq<string>)
    requires Bounded(c, s) && DeleteOutcomeOf(s, id, consumer, reply) == Deleted
    requires var s1 := Delete(s, id, consumer, reply, t);
             && ProperRun(c, s1, ops) && SparingRun(c, s1, ops, id, t + c.unavailableTtl)
             && Proper(c, Run(c, s1, ops), DoCleanup(now, order))
    requires now >= t + c.unavailableTtl
    ensures var s2 := Run(c, Delete(s, id, consumer, reply, t), ops);
            var s3 := RemoveEach(s2, order);
            && id in s2.byId && s2.byId[id].status == Unavailable && s2.byId[id].info == Some(DeleteRequested)
            && id !in s3.byId && forall supi :: id !in IdsOf(s3, supi)
  {
    DeleteBounded(c, s, id, consumer, reply, t);
    var s1 := Delete(s, id, consumer, reply, t);
    DeletedStaysReadable(c, s1, ops, id, t);
    RunBounded(c, s1, ops);
    var s2 := Run(c, s1, ops);
    assert id in ExpiredIds(s2, now, c.unavailableTtl);
    RemoveEachFacts(s2, order);
    forall supi
      ensures id !in IdsOf(RemoveEach(s2, order), supi)
    {
      GroupedIds(RemoveEach(s2, order), supi);
    }
  }
}
