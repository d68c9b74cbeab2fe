/** The QoD session store: sessions by id, session ids by SUPI, and PCF ids. */
module QodStores {
  import opened Options

  datatype Status = Requested | Available | Unavailable

  datatype StatusInfo = DurationExpired | NetworkTerminated | DeleteRequested

  datatype Device = Device(phone: Option<string>, ipv4: Option<string>, ipv6: Option<string>)

  datatype Session = Session(
    id: string,
    consumer: string,
    profile: string,
    duration: int,
    createdAt: int,
    startedAt: Option<int>,
    expiresAt: Option<int>,
    status: Status,
    info: Option<StatusInfo>,
    error: Option<string>,
    device: Option<Device>,
    supi: Option<string>,
    pduId: Option<string>,
    pcfId: Option<string>)

  datatype Store = Store(byId: map<string, Session>, bySupi: map<string, set<string>>, pcf: map<string, string>)

  const EMPTY: Store := Store(map[], map[], map[])

  // === Operations ===

  function IdsOf(s: Store, supi: string): set<string> {
    if supi in s.bySupi then s.bySupi[supi] else {}
  }

  /** `add_session`. */
  function Add(s: Store, x: Session): Store {
    s.(byId := s.byId[x.id := x],
       bySupi := if x.supi.Some? then s.bySupi[x.supi.value := IdsOf(s, x.supi.value) + {x.id}] else s.bySupi)
  }

  /** The SUPI index without one id; a group left empty goes too. */
  function Unindexed(s: Store, id: string, supi: Option<string>): map<string, set<string>> {
    if supi.Some? && supi.value in s.bySupi then
      var left := s.bySupi[supi.value] - {id};
      if left == {} then s.bySupi - {supi.value} else s.bySupi[supi.value := left]
    else s.bySupi
  }

  /** `remove_session`. */
  function Remove(s: Store, id: string): Store {
    if id !in s.byId then s
    else s.(byId := s.byId - {id}, bySupi := Unindexed(s, id, s.byId[id].supi))
  }

  /** `update_session`: a plain overwrite. */
  function Update(s: Store, x: Session): Store {
    if x.id in s.byId then s.(byId := s.byId[x.id := x]) else s
  }

  /** `update_session_status`. */
  function SetStatus(s: Store, id: string, status: Status, info: Option<StatusInfo>): Store {
    if id !in s.byId then s
    else
      var x := s.byId[id];
      s.(byId := s.byId[id := x.(status := status, info := if info.Some? then info else x.info)])
  }

  /** A session whose expiry plus the grace period has passed. */
  predicate Expired(x: Session, now: int, grace: int) {
    x.expiresAt.Some? && now >= x.expiresAt.value + grace
  }

  function ExpiredIds(s: Store, now: int, grace: int): set<string> {
    set id | id in s.byId && Expired(s.byId[id], now, grace)
  }

  // === The SUPI index ===

  function Supis(byId: map<string, Session>): set<string> {
    set id | id in byId && byId[id].supi.Some? :: byId[id].supi.value
  }

  function Members(byId: map<string, Session>, supi: string): set<string> {
    set id | id in byId && byId[id].supi == Some(supi)
  }

  /** The grouping of the stored sessions by SUPI; a SUPI without sessions has no group. */
  function Group(byId: map<string, Session>): map<string, set<string>> {
    map supi | supi in Supis(byId) :: Members(byId, supi)
  }

  ghost predicate Indexed(s: Store) {
    s.bySupi == Group(s.byId)
  }

  ghost predicate Keyed(s: Store) {
    forall id :: id in s.byId ==> s.byId[id].id == id
  }

  lemma GroupedIds(s: Store, supi: string)
    requires Indexed(s)
    ensures IdsOf(s, supi) == Members(s.byId, supi)
    ensures supi in s.bySupi <==> Members(s.byId, supi) != {}
  {
    if id :| id in Members(s.byId, supi) {
      assert supi in Supis(s.byId);
    }
    if supi in Supis(s.byId) {
      var id :| id in s.byId && s.byId[id].supi == Some(supi);
      assert id in Members(s.byId, supi);
    }
  }

  lemma IndexedPointwise(s: Store)
    requires forall supi :: IdsOf(s, supi) == Members(s.byId, supi)
    requires forall supi :: supi in s.bySupi ==> s.bySupi[supi] != {}
    ensures Indexed(s)
  {
    forall supi
      ensures supi in s.bySupi <==> supi in Supis(s.byId)
      ensures supi in s.bySupi ==> s.bySupi[supi] == Members(s.byId, supi)
    {
      assert IdsOf(s, supi) == Members(s.byId, supi);
      if supi in Supis(s.byId) {
        var id :| id in s.byId && s.byId[id].supi == Some(supi);
        assert id in Members(s.byId, supi);
      }
    }
  }

  /** Adding keeps the index exact unless it overwrites a session filed under another SUPI. */
  lemma AddIndexedIff(s: Store, x: Session)
    requires Indexed(s)
    ensures Indexed(Add(s, x)) <==>
            (x.id in s.byId && s.byId[x.id].supi.Some? ==> s.byId[x.id].supi == x.supi)
  {
    var t := Add(s, x);
    if x.id in s.byId && s.byId[x.id].supi.Some? && s.byId[x.id].supi != x.supi {
      var supi := s.byId[x.id].supi.value;
      GroupedIds(s, supi);
      assert x.id in IdsOf(t, supi) && x.id !in Members(t.byId, supi);
      if Indexed(t) {
        GroupedIds(t, supi);
      }
    } else {
      forall supi
        ensures IdsOf(t, supi) == Members(t.byId, supi)
        ensures supi in t.bySupi ==> t.bySupi[supi] != {}
      {
        GroupedIds(s, supi);
      }
      IndexedPointwise(t);
    }
  }

  /** Removal always keeps the index exact, empty groups included. */
  lemma RemoveIndexed(s: Store, id: string)
    requires Indexed(s)
    ensures Indexed(Remove(s, id))
  {
    var t := Remove(s, id);
    forall supi
      ensures IdsOf(t, supi) == Members(t.byId, supi)
      ensures supi in t.bySupi ==> t.bySupi[supi] != {}
    {
      GroupedIds(s, supi);
      assert id in s.byId ==> Members(t.byId, supi) == Members(s.byId, supi) - {id};
    }
    IndexedPointwise(t);
  }

  /** An overwrite keeps the index exact just when the SUPI stays the same. */
  lemma UpdateIndexedIff(s: Store, x: Session)
    requires Indexed(s)
    ensures Indexed(Update(s, x)) <==> (x.id in s.byId ==> x.supi == s.byId[x.id].supi)
  {
    if x.id in s.byId {
      var t := Update(s, x);
      var y := s.byId[x.id];
      if x.supi == y.supi {
        forall supi
          ensures IdsOf(t, supi) == Members(t.byId, supi)
          ensures supi in t.bySupi ==> t.bySupi[supi] != {}
        {
          GroupedIds(s, supi);
          assert Members(t.byId, supi) == Members(s.byId, supi);
        }
        IndexedPointwise(t);
      } else {
        var supi := if x.supi.Some? then x.supi.value else y.supi.value;
        GroupedIds(s, supi);
        assert IdsOf(t, supi) == Members(s.byId, supi);
        assert x.id in Members(t.byId, supi) <==> x.id !in Members(s.byId, supi);
        if Indexed(t) {
          GroupedIds(t, supi);
          assert false;
        }
      }
    }
  }

  // === The store as an object ===

  class QodStateManager {
    var sessionsById: map<string, Session>
    var sessionsBySupi: map<string, set<string>>
    var pcfMapping: map<string, string>

    ghost function Contents(): Store
      reads this
    {
      Store(sessionsById, sessionsBySupi, pcfMapping)
    }

    constructor ()
      ensures Contents() == EMPTY && Indexed(Contents())
    {
      sessionsById, sessionsBySupi, pcfMapping := map[], map[], map[];
    }

    method AddSession(x: Session)
      modifies this
      ensures Contents() == Add(old(Contents()), x)
    {
      sessionsById := sessionsById[x.id := x];
      if x.supi.Some? {
        var ids := if x.supi.value in sessionsBySupi then sessionsBySupi[x.supi.value] else {};
        sessionsBySupi := sessionsBySupi[x.supi.value := ids + {x.id}];
      }
    }

    method RemoveSession(id: string) returns (removed: bool)
      modifies this
      ensures removed <==> id in old(sessionsById)
      ensures Contents() == Remove(old(Contents()), id)
    {
      if id !in sessionsById {
        return false;
      }
      var x := sessionsById[id];
      if x.supi.Some? && x.supi.value in sessionsBySupi {
        sessionsBySupi := sessionsBySupi[x.supi.value := sessionsBySupi[x.supi.value] - {id}];
        if sessionsBySupi[x.supi.value] == {} {
          sessionsBySupi := sessionsBySupi - {x.supi.value};
          assert sessionsBySupi == old(sessionsBySupi) - {x.supi.value};
        }
      }
      sessionsById := sessionsById - {id};
      return true;
    }

    method UpdateSession(x: Session) returns (found: bool)
      modifies this
      ensures found <==> x.id in old(sessionsById)
      ensures Contents() == Update(old(Contents()), x)
    {
      found := x.id in sessionsById;
      if found {
        sessionsById := sessionsById[x.id := x];
      }
    }

    method UpdateSessionStatus(id: string, status: Status, info: Option<StatusInfo>) returns (found: bool)
      modifies this
      ensures found <==> id in old(sessionsById)
      ensures Contents() == SetStatus(old(Contents()), id, status, info)
    {
      found := id in sessionsById;
      if found {
        var x := sessionsById[id].(status := status);
        if info.Some? {
          x := x.(info := info);
        }
        sessionsById := sessionsById[id := x];
      }
    }

    /** The ids under a SUPI: in a store with an exact index, those a full scan finds. */
    method GetSessionsBySupi(supi: string) returns (ids: set<string>)
      ensures ids == IdsOf(Contents(), supi)
      ensures Indexed(Contents()) ==> ids == Members(sessionsById, supi)
    {
      ids := if supi in sessionsBySupi then sessionsBySupi[supi] else {};
      if Indexed(Contents()) {
        GroupedIds(Contents(), supi);
      }
    }

    /** Some session of the SUPI on that PDU session; None exactly when a full scan finds none. */
    method GetSessionByPduSession(supi: string, pduId: string) returns (r: Option<Session>)
      requires Indexed(Contents())
      ensures r.Some? ==> r.value in sessionsById.Values && r.value.supi == Some(supi) && r.value.pduId == Some(pduId)
      ensures r.None? ==>
                forall id :: id in sessionsById && sessionsById[id].supi == Some(supi) ==> sessionsById[id].pduId != Some(pduId)
    {
      var todo := GetSessionsBySupi(supi);
      while todo != {}
        invariant todo <= Members(sessionsById, supi)
        invariant forall id :: id in Members(sessionsById, supi) - todo ==> sessionsById[id].pduId != Some(pduId)
        decreases |todo|
      {
        var id :| id in todo;
        if id in sessionsById && sessionsById[id].pduId == Some(pduId) {
          return Some(sessionsById[id]);
        }
        todo := todo - {id};
      }
      assert forall id :: id in sessionsById && sessionsById[id].supi == Some(supi) ==> id in Members(sessionsById, supi);
      return None;
    }

    method GetExpiredIds(now: int, grace: int) returns (ids: set<string>)
      ensures ids == ExpiredIds(Contents(), now, grace)
    {
      ids := {};
      var todo := sessionsById.Keys;
      while todo != {}
        invariant todo <= sessionsById.Keys
        invariant ids == ExpiredIds(Contents(), now, grace) - todo
        decreases |todo|
      {
        var id :| id in todo;
        todo := todo - {id};
        if Expired(sessionsById[id], now, grace) {
          ids := ids + {id};
        }
      }
    }

    method ClearAllSessions()
      modifies this
      ensures Contents() == old(Contents()).(byId := map[], bySupi := map[])
    {
      sessionsById, sessionsBySupi := map[], map[];
    }

    method UpdatePcfSessionMap(pcfId: string, id: string)
      modifies `pcfMapping
      ensures Contents() == old(Contents()).(pcf := old(pcfMapping)[pcfId := id])
    {
      pcfMapping := pcfMapping[pcfId := id];
    }

    method RemovePcfMapping(pcfId: string) returns (found: bool)
      modifies `pcfMapping
      ensures found <==> pcfId in old(pcfMapping)
      ensures Contents() == old(Contents()).(pcf := old(pcfMapping) - {pcfId})
    {
      found := pcfId in pcfMapping;
      pcfMapping := pcfMapping - {pcfId};
    }
  }
}
