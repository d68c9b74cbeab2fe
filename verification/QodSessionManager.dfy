/** The session manager over its session store: each call, taken as atomic, proved to do to the store
    what the operation of QodSessions says. */
module QodSessionManagers {
  import opened Options
  import opened QodStores
  import opened QodSessions
  import opened QodContents

  class QodSessionManager {
    const config: Config
    const store: QodStateManager

    constructor (config: Config, store: QodStateManager)
      ensures this.config == config && this.store == store
    {
      this.config, this.store := config, store;
    }

    method HandlePcfSessionResponse(id: string, pcfId: string, success: bool, message: string, now: int)
      requires Keyed(store.Contents())
      modifies store
      ensures store.Contents() == Respond(old(store.Contents()), id, pcfId, success, message, now)
      ensures old(Inv(config, store.Contents())) ==>
                (Inv(config, store.Contents()) <==> AnswerFits(old(store.Contents()), id, pcfId, success))
    {
      if Inv(config, store.Contents()) {
        RespondInvIff(config, store.Contents(), id, pcfId, success, message, now);
      }
      if id !in store.sessionsById {
        return;
      }
      var x := store.sessionsById[id];
      if success {
        x := x.(status := Available, pcfId := Some(pcfId), startedAt := Some(now));
        x := x.(expiresAt := Some(x.startedAt.value + x.duration));
        store.UpdatePcfSessionMap(pcfId, id);
      } else {
        x := x.(status := Unavailable, info := Some(NetworkTerminated), error := Some(message));
      }
      var _ := store.UpdateSession(x);
    }

    method HandlePcfSessionTerminated(pcfId: string)
      modifies store
      ensures store.Contents() == Terminate(old(store.Contents()), pcfId)
    {
      if pcfId !in store.pcfMapping || store.pcfMapping[pcfId] !in store.sessionsById {
        return;
      }
      var x := store.sessionsById[store.pcfMapping[pcfId]];
      if x.status == Available && x.pduId.Some? && !HasUeKey(x) {
        return;
      }
      var _ := store.RemoveSession(x.id);
      var _ := store.RemovePcfMapping(pcfId);
    }

    /** The answer is false when the creation failed at once. */
    method ApplySessionToPcf(id: string, reply: CreateReply, now: int) returns (applied: bool)
      requires Keyed(store.Contents())
      modifies store
      ensures applied <==> reply.Created? || reply.Ended?
      ensures store.Contents() ==
              match reply
              case Created(p) => Respond(old(store.Contents()), id, p, true, "", now)
              case Ended(p) => Terminate(old(store.Contents()), p)
              case Refused(message) => Respond(old(store.Contents()), id, "", false, message, now)
              case _ => old(store.Contents())
    {
      match reply
      case Created(p) =>
        HandlePcfSessionResponse(id, p, true, "", now);
        return true;
      case Ended(p) =>
        HandlePcfSessionTerminated(p);
        return true;
      case Refused(message) =>
        HandlePcfSessionResponse(id, "", false, message, now);
        return false;
      case _ =>
        return false;
    }

    /** Returns the new session as requested, or as unavailable when the PCF refused at once; None for
        an unusable request. The stored session is what `Create` says. */
    method CreateSession(r: Request, id: string, supi: Option<string>, pduId: Option<string>, conflict: bool,
                         reply: CreateReply, now: int, later: int) returns (result: Option<Session>)
      requires Inv(config, store.Contents())
      requires Proper(config, store.Contents(), DoCreate(r, id, supi, pduId, conflict, reply, now, later))
      modifies store
      ensures Inv(config, store.Contents())
      ensures store.Contents() == Create(config, old(store.Contents()), r, id, supi, pduId, conflict, reply, now, later)
      ensures result.Some? <==> Acceptable(config, r) && !(r.device.Some? && conflict)
      ensures result.Some? ==>
                result.value.id == id
                && result.value.status == if reply.Created? || reply.Ended? then Requested else Unavailable
      ensures result.Some? ==>
                && id in store.sessionsById
                && Carries(result.value, r, id, supi, pduId, now)
                && Carries(store.sessionsById[id], r, id, supi, pduId, now)
                && Answered(store.sessionsById[id], reply, later)
    {
      CreateContents(config, store.Contents(), DoCreate(r, id, supi, pduId, conflict, reply, now, later));
      InvStepIff(config, store.Contents(), DoCreate(r, id, supi, pduId, conflict, reply, now, later));
      if r.profile !in config.supported || r.duration > MaxFor(config, r.profile) || r.duration < config.minDuration {
        return None;
      }
      if r.profile !in config.mapped {
        return None;
      }
      if r.device.Some? && conflict {
        return None;
      }
      var x := NewSession(r, id, supi, pduId, now);
      AddInv(config, store.Contents(), x);
      store.AddSession(x);
      var applied := ApplySessionToPcf(id, reply, later);
      if !applied {
        var _ := store.UpdateSessionStatus(id, Unavailable, Some(NetworkTerminated));
        return Some(store.sessionsById[id]);
      }
      return Some(x);
    }

    method GetSession(id: string, consumer: string) returns (r: Option<Session>)
      ensures r.Some? <==> id in store.sessionsById && store.sessionsById[id].consumer == consumer
      ensures r.Some? ==> r.value == store.sessionsById[id]
    {
      if id in store.sessionsById && store.sessionsById[id].consumer == consumer {
        r := Some(store.sessionsById[id]);
      } else {
        r := None;
      }
    }

    method DeleteSession(id: string, consumer: string, reply: DeleteReply, now: int) returns (deleted: bool)
      requires Inv(config, store.Contents())
      modifies store
      ensures Inv(config, store.Contents())
      ensures deleted <==> DeleteOutcomeOf(old(store.Contents()), id, consumer, reply) == Deleted
      ensures store.Contents() == Delete(old(store.Contents()), id, consumer, reply, now)
    {
      DeleteInv(config, store.Contents(), id, consumer, reply, now);
      if id !in store.sessionsById || store.sessionsById[id].consumer != consumer {
        return false;
      }
      var x := store.sessionsById[id];
      if x.status == Available && x.pcfId.Some? {
        if reply.NotConfirmed? {
          return false;
        }
        var _ := store.RemovePcfMapping(reply.pcfId);
      }
      x := x.(status := Unavailable, info := Some(DeleteRequested), expiresAt := Some(now));
      if x.pduId.Some? && !HasUeKey(x) {
        return false;
      }
      var _ := store.UpdateSession(x);
      return true;
    }

    /** `unset` is what reading an absent start time yields; the source does not check for one. */
    method ExtendSessionDuration(id: string, consumer: string, add: int, unset: int) returns (r: Option<Session>)
      requires Inv(config, store.Contents())
      modifies store
      ensures Inv(config, store.Contents()) <==> ExtendOutcomeOf(old(store.Contents()), id, consumer, add) != Undefined
      ensures r.Some? <==> ExtendOutcomeOf(old(store.Contents()), id, consumer, add) in {Extended, Undefined}
      ensures store.Contents() == Extend(config, old(store.Contents()), id, consumer, add, unset)
      ensures r.Some? ==> r.value == store.sessionsById[id]
    {
      ExtendInvIff(config, store.Contents(), id, consumer, add, unset);
      r := WriteExtension(id, consumer, add, unset);
    }

    method WriteExtension(id: string, consumer: string, add: int, unset: int) returns (r: Option<Session>)
      requires Keyed(store.Contents())
      modifies store
      ensures r.Some? <==> ExtendOutcomeOf(old(store.Contents()), id, consumer, add) in {Extended, Undefined}
      ensures store.Contents() == Extend(config, old(store.Contents()), id, consumer, add, unset)
      ensures r.Some? ==> id in store.sessionsById && r.value == store.sessionsById[id]
    {
      if add < 1 {
        return None;
      }
      if id !in store.sessionsById || store.sessionsById[id].consumer != consumer {
        return None;
      }
      var x := store.sessionsById[id];
      if x.status != Available && x.status != Requested {
        return None;
      }
      var total := x.duration + add;
      if total > MaxFor(config, x.profile) {
        total := MaxFor(config, x.profile);
      }
      x := x.(duration := total);
      x := x.(expiresAt := Some(StartRead(x, unset) + total));
      var _ := store.UpdateSession(x);
      return Some(x);
    }

    /** The event names a SUPI and a PDU session; the first match of the lookup goes. */
    method HandlePduSessionTerminated(supi: string, pduId: string) returns (ended: Option<string>)
      requires Inv(config, store.Contents())
      modifies store
      ensures Inv(config, store.Contents())
      ensures ended.None? ==> store.Contents() == old(store.Contents()) && forall id :: !OnPdu(old(store.Contents()), supi, pduId, id)
      ensures ended.Some? ==> OnPdu(old(store.Contents()), supi, pduId, ended.value)
                              && store.Contents() == Remove(old(store.Contents()), ended.value)
    {
      GroupedIds(store.Contents(), supi);
      var found := store.GetSessionByPduSession(supi, pduId);
      if found.None? {
        return None;
      }
      assert found.value.id in Members(store.sessionsById, supi);
      RemoveInv(config, store.Contents(), found.value.id);
      var _ := store.RemoveSession(found.value.id);
      return Some(found.value.id);
    }

    /** Removes exactly the sessions whose expiry plus grace has passed. */
    method CleanupExpiredSessions(now: int) returns (ghost order: seq<string>)
      requires Inv(config, store.Contents())
      modifies store
      ensures Inv(config, store.Contents())
      ensures Proper(config, old(store.Contents()), DoCleanup(now, order))
      ensures store.Contents() == RemoveEach(old(store.Contents()), order)
      ensures store.sessionsById == old(store.sessionsById) - ExpiredIds(old(store.Contents()), now, config.unavailableTtl)
    {
      ghost var start := store.Contents();
      var todo := store.GetExpiredIds(now, config.unavailableTtl);
      order := [];
      while todo != {}
        invariant store.Contents() == RemoveEach(start, order)
        invariant (set id | id in order) + todo == ExpiredIds(start, now, config.unavailableTtl)
        decreases |todo|
      {
        var id :| id in todo;
        RemoveEachAppend(start, order, id);
        var _ := store.RemoveSession(id);
        order := order + [id];
        todo := todo - {id};
      }
      InvStepIff(config, start, DoCleanup(now, order));
      RemoveEachFacts(start, order);
    }

    method Stop()
      requires Inv(config, store.Contents())
      modifies store
      ensures Inv(config, store.Contents())
      ensures store.Contents() == Clear(old(store.Contents()))
      ensures store.sessionsById == map[] && store.sessionsBySupi == map[] && store.pcfMapping == old(store.pcfMapping)
    {
      store.ClearAllSessions();
    }
  }

  lemma {:induction false} RemoveEachAppend(s: Store, ids: seq<string>, id: string)
    ensures RemoveEach(s, ids + [id]) == Remove(RemoveEach(s, ids), id)
    decreases ids
  {
    if ids == [] {
      assert ([] + [id])[1..] == [];
    } else {
      assert (ids + [id])[1..] == ids[1..] + [id];
      RemoveEachAppend(Remove(s, ids[0]), ids[1..], id);
    }
  }
}
