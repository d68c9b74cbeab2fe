/** What each call of the session manager leaves in the stored sessions, told field by field. */
module QodContents {
  import opened Options
  import opened QodStores
  import opened QodSessions

  /** Every session but the one with this id is as before. */
  ghost predicate OthersSame(s: Store, t: Store, id: string) {
    forall o :: o != id ==> (o in t.byId <==> o in s.byId) && (o in s.byId ==> t.byId[o] == s.byId[o])
  }

  // === Creation ===

  /** The session carries what was requested and resolved. */
  predicate Carries(x: Session, r: Request, id: string, supi: Option<string>, pduId: Option<string>, now: int) {
    && x.id == id && x.consumer == r.consumer && x.profile == r.profile && x.duration == r.duration
    && x.device == r.device && x.createdAt == now
    && x.supi == (if r.device.Some? then supi else None)
    && x.pduId == (if r.device.Some? then pduId else None)
  }

  /** What the answer of the PCF makes of the new session. */
  predicate Answered(x: Session, reply: CreateReply, later: int) {
    match reply
    case Created(p) =>
      && x.status == Available && x.pcfId == Some(p) && x.startedAt == Some(later)
      && x.expiresAt == Some(later + x.duration) && x.info == None && x.error == None
    case Ended(_) => x.status == Requested && x.pcfId == None && x.startedAt == None && x.expiresAt == None && x.info == None
    case Refused(message) =>
      x.status == Unavailable && x.info == Some(NetworkTerminated) && x.error == Some(message) && x.startedAt == None
    case _ => x.status == Unavailable && x.info == Some(NetworkTerminated) && x.error == None && x.startedAt == None
  }

  /** The request is one the manager takes: a supported profile with a known mapping, a duration from
      the minimum to the profile's own maximum or else the general one, and no conflict. */
  predicate Taken(c: Config, op: Op)
    requires op.DoCreate?
  {
    && op.r.profile in c.supported && op.r.profile in c.mapped
    && c.minDuration <= op.r.duration
    && (op.r.profile in c.profileMax ==> op.r.duration <= c.profileMax[op.r.profile])
    && (op.r.profile !in c.profileMax ==> op.r.duration <= c.maxDuration)
    && !(op.r.device.Some? && op.conflict)
  }

  /** A creation stores a session exactly when the request is taken; the session carries the request and
      the answer, a success answer maps its PCF id to it, and only a termination answer touches another
      session. */
  lemma CreateContents(c: Config, s: Store, op: Op)
    requires Keyed(s) && op.DoCreate? && Proper(c, s, op)
    ensures var t := Step(c, s, op);
            && (op.id in t.byId <==> Taken(c, op))
            && (!Taken(c, op) ==> t == s)
            && (Taken(c, op) ==> Carries(t.byId[op.id], op.r, op.id, op.supi, op.pduId, op.now)
                                 && Answered(t.byId[op.id], op.reply, op.later))
            && (!op.reply.Ended? ==> OthersSame(s, t, op.id))
            && (Taken(c, op) && op.reply.Created? ==> t.pcf == s.pcf[op.reply.pcfId := op.id])
            && (op.reply.Refused? || op.reply.NoReply? || op.reply.Unexpected? ==> t.pcf == s.pcf)
  {
    if Taken(c, op) {
      var x := NewSession(op.r, op.id, op.supi, op.pduId, op.now);
      SettleContents(Add(s, x), x, op.reply, op.later);
    }
  }

  lemma SettleContents(s: Store, x: Session, reply: CreateReply, now: int)
    requires Keyed(s) && x.id in s.byId && s.byId[x.id] == x && x.id !in s.pcf.Values
    requires x.status == Requested && x.pcfId == None && x.startedAt == None && x.expiresAt == None
    requires x.info == None && x.error == None
    ensures var t := Settle(s, x.id, reply, now);
            && x.id in t.byId
            && (!reply.Ended? ==> OthersSame(s, t, x.id))
            && t.byId[x.id] == x.(status := t.byId[x.id].status, pcfId := t.byId[x.id].pcfId, info := t.byId[x.id].info,
                                  startedAt := t.byId[x.id].startedAt, expiresAt := t.byId[x.id].expiresAt,
                                  error := t.byId[x.id].error)
            && Answered(t.byId[x.id], reply, now)
            && (reply.Created? ==> t.pcf == s.pcf[reply.pcfId := x.id])
            && (reply.Refused? || reply.NoReply? || reply.Unexpected? ==> t.pcf == s.pcf)
  {
  }

  /** A session that the PCF accepted is stored exactly until its duration and the grace period have
      passed since the answer, whatever cleanup comes first. */
  lemma CreatedLives(c: Config, s: Store, op: Op, now: int, order: seq<string>)
    requires Inv(c, s) && op.DoCreate? && Proper(c, s, op) && Taken(c, op) && op.reply.Created?
    requires Proper(c, Step(c, s, op), DoCleanup(now, order))
    ensures op.id in RemoveEach(Step(c, s, op), order).byId <==> now < op.later + op.r.duration + c.unavailableTtl
  {
    CreateContents(c, s, op);
    InvStepIff(c, s, op);
    CleanupContents(c, Step(c, s, op), now, order, op.id);
  }

  // === Cleanup ===

  /** A cleanup keeps a session, as it is, exactly when it has no expiry, as a failed one, or its expiry
      plus the grace period is still to come; an available one is kept while its start, its duration and
      the grace period add up to more than the time. */
  lemma CleanupContents(c: Config, s: Store, now: int, order: seq<string>, id: string)
    requires Inv(c, s) && Proper(c, s, DoCleanup(now, order))
    ensures var t := RemoveEach(s, order);
            && (id in t.byId <==>
                id in s.byId && (s.byId[id].expiresAt.Some? ==> now < s.byId[id].expiresAt.value + c.unavailableTtl))
            && (id in s.byId && s.byId[id].status == Available ==>
                  (id in t.byId <==> now < s.byId[id].startedAt.value + s.byId[id].duration + c.unavailableTtl))
            && (id in t.byId ==> t.byId[id] == s.byId[id])
            && t.pcf == s.pcf
  {
    RemoveEachFacts(s, order);
    if id in s.byId {
      assert WellFormed(c, s.byId[id]);
      assert id in order <==> id in ExpiredIds(s, now, c.unavailableTtl);
    }
  }

  // === Deletion, extension, answers and terminations ===

  /** The PCF has to confirm a deletion, and does not. */
  predicate Withheld(x: Session, reply: DeleteReply) {
    x.status == Available && x.pcfId.Some? && reply.NotConfirmed?
  }

  /** No key for the UE store can be made from the session. */
  predicate Keyless(x: Session) {
    || x.device.None?
    || (x.supi.None? && x.device.value.phone.None? && x.device.value.ipv4.None? && x.device.value.ipv6.None?)
  }

  /** A deletion by the session's own consumer, confirmed where the PCF knows the session, marks it and
      drops the mapping the answer names; with a PDU session but no key for it, only the mapping goes;
      any other deletion changes nothing. */
  lemma DeleteContents(s: Store, id: string, consumer: string, reply: DeleteReply, now: int)
    requires Keyed(s)
    ensures var t := Delete(s, id, consumer, reply, now);
            if id in s.byId && s.byId[id].consumer == consumer && !Withheld(s.byId[id], reply) then
              var x := s.byId[id];
              && (if x.pduId.Some? && Keyless(x) then t.byId == s.byId
                  else t.byId == s.byId[id := x.(status := Unavailable, info := Some(DeleteRequested), expiresAt := Some(now))])
              && t.bySupi == s.bySupi
              && (x.status == Available && x.pcfId.Some? ==> t.pcf == s.pcf - {reply.pcfId})
              && (x.status != Available || x.pcfId.None? ==> t.pcf == s.pcf)
            else t == s
  {
  }

  /** An extension by the session's own consumer, of a session that is not over, sets the duration to the
      sum or, if that is more, to the profile's maximum, and the expiry to match; any other changes
      nothing. */
  lemma ExtendContents(c: Config, s: Store, id: string, consumer: string, add: int, unset: int)
    requires Keyed(s)
    ensures var t := Extend(c, s, id, consumer, add, unset);
            if add >= 1 && id in s.byId && s.byId[id].consumer == consumer && s.byId[id].status != Unavailable then
              var x := s.byId[id];
              var cap := if x.profile in c.profileMax then c.profileMax[x.profile] else c.maxDuration;
              var total := if x.duration + add > cap then cap else x.duration + add;
              var start := if x.startedAt.Some? then x.startedAt.value else unset;
              t == s.(byId := s.byId[id := x.(duration := total, expiresAt := Some(start + total))])
            else t == s
  {
  }

  /** An answer for a session that is not stored changes nothing; a success makes the session available
      from now on under the PCF id it brings, a failure makes it unavailable with the message. */
  lemma RespondContents(s: Store, id: string, pcfId: string, success: bool, message: string, now: int)
    requires Keyed(s)
    ensures var t := Respond(s, id, pcfId, success, message, now);
            && (id !in s.byId ==> t == s)
            && (id in s.byId && success ==>
                  && t.pcf == s.pcf[pcfId := id] && t.bySupi == s.bySupi
                  && t.byId == s.byId[id := s.byId[id].(status := Available, pcfId := Some(pcfId), startedAt := Some(now),
                                                       expiresAt := Some(now + s.byId[id].duration))])
            && (id in s.byId && !success ==>
                  && t.pcf == s.pcf && t.bySupi == s.bySupi
                  && t.byId == s.byId[id := s.byId[id].(status := Unavailable, info := Some(NetworkTerminated),
                                                       error := Some(message))])
  {
  }

  /** A termination drops the session its PCF id leads to, and the mapping, unless that session is
      available with a PDU session and no key for it; nothing else changes. */
  lemma TerminateContents(s: Store, pcfId: string)
    requires Keyed(s) && Indexed(s)
    ensures var t := Terminate(s, pcfId);
            if pcfId in s.pcf && s.pcf[pcfId] in s.byId
               && !(s.byId[s.pcf[pcfId]].status == Available && s.byId[s.pcf[pcfId]].pduId.Some? && Keyless(s.byId[s.pcf[pcfId]])) then
              t.byId == s.byId - {s.pcf[pcfId]} && t.pcf == s.pcf - {pcfId} && Indexed(t)
            else t == s
  {
    if pcfId in s.pcf && s.pcf[pcfId] in s.byId {
      RemoveIndexed(s, s.pcf[pcfId]);
    }
  }
}
