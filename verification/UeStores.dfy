/** The UE store as a value: the states by key string and five secondary indices, what every
    operation makes of them, and exactly when an operation keeps the indices equal to a scan. */
module UeStores {
  import opened Options
  import opened UeKeys
  import opened UeStates
  import opened NameIndices

  datatype Indices = Indices(supi: Index, gpsi: Index, ipv4: Index, ipv6: Index, ipv6Prefix: Index) {
    function Of(a: Attr): Index {
      match a
      case BySupi => supi
      case ByGpsi => gpsi
      case ByIpv4 => ipv4
      case ByIpv6 => ipv6
      case ByIpv6Prefix => ipv6Prefix
    }
  }

  datatype Store = Store(ues: map<string, UeState>, index: Indices)

  const EMPTY: Store := Store(map[], Indices(map[], map[], map[], map[], map[]))

  // === Index updates ===

  /** `add_ue_indices`: every name of the state points to the state's own primary key. */
  function AddUe(ix: Indices, st: UeState): Indices {
    var key := st.key.PrimaryKey();
    Indices(Put(ix.supi, UeNames(BySupi, st), key), Put(ix.gpsi, UeNames(ByGpsi, st), key),
            Put(ix.ipv4, UeNames(ByIpv4, st), key), Put(ix.ipv6, UeNames(ByIpv6, st), key),
            Put(ix.ipv6Prefix, UeNames(ByIpv6Prefix, st), key))
  }

  /** `remove_ue_indices`: erases without looking at the owner. */
  function RemoveUe(ix: Indices, st: UeState): Indices {
    Indices(ix.supi - UeNames(BySupi, st), ix.gpsi - UeNames(ByGpsi, st), ix.ipv4 - UeNames(ByIpv4, st),
            ix.ipv6 - UeNames(ByIpv6, st), ix.ipv6Prefix - UeNames(ByIpv6Prefix, st))
  }

  function AddPdu(ix: Indices, key: string, p: PduSession): Indices {
    ix.(ipv4 := Put(ix.ipv4, PduNames(ByIpv4, p), key), ipv6 := Put(ix.ipv6, PduNames(ByIpv6, p), key),
        ipv6Prefix := Put(ix.ipv6Prefix, PduNames(ByIpv6Prefix, p), key))
  }

  function RemovePdu(ix: Indices, key: string, p: PduSession): Indices {
    ix.(ipv4 := EraseOwned(ix.ipv4, PduNames(ByIpv4, p), key), ipv6 := EraseOwned(ix.ipv6, PduNames(ByIpv6, p), key),
        ipv6Prefix := EraseOwned(ix.ipv6Prefix, PduNames(ByIpv6Prefix, p), key))
  }

  // === Operations, on the primary key string of the key they are given ===

  /** `update_ue_state`: store the state under its own key, refreshing the indices. */
  function Update(s: Store, st: UeState): Store {
    var key := st.key.PrimaryKey();
    var ix := if key in s.ues then RemoveUe(s.index, s.ues[key]) else s.index;
    Store(s.ues[key := st], AddUe(ix, st))
  }

  /** The existing state with the mutable fields of the data laid over it. */
  function Overlay(st: UeState, data: UeState): UeState {
    st.(gpsi := if data.gpsi.Some? then data.gpsi else st.gpsi, pdus := PutPdus(st.pdus, data.pdus))
  }

  /** `create_or_update_provisional_ue_state`: a new state is indexed, an existing one is changed
      without touching the indices. */
  function Provision(s: Store, key: UeKey, data: Option<UeState>, now: int): Store {
    var k := key.PrimaryKey();
    if k in s.ues then
      if data.None? then s else s.(ues := s.ues[k := Overlay(s.ues[k], data.value)])
    else
      var st := if data.Some? then data.value else ProvisionalState(key, now);
      Store(s.ues[k := st], AddUe(s.index, st))
  }

  /** How a promotion ends. `Rejected`: the SUPI is malformed and the key constructor throws.
      `Blocked`: the SUPI key is taken, so the call re-enters the lock it already holds. */
  datatype Promotion = NotFound | Rejected | SameKey | Blocked | Promoted

  function PromotionOf(s: Store, k: string, supi: string): Promotion {
    if k !in s.ues then NotFound
    else if !ValidSupi(supi) then Rejected
    else if k == "supi:" + supi then SameKey
    else if "supi:" + supi in s.ues then Blocked
    else Promoted
  }

  /** `promote_ue_state_to_resolved`: same-key promotion leaves the indices alone. */
  function Promote(s: Store, k: string, supi: string): Store {
    match PromotionOf(s, k, supi)
    case SameKey => s.(ues := s.ues[k := s.ues[k].ResolveSupi(supi)])
    case Promoted =>
      var st := s.ues[k].ResolveSupi(supi);
      Store((s.ues - {k})["supi:" + supi := st], AddUe(RemoveUe(s.index, s.ues[k]), st))
    case _ => s
  }

  /** `merge_ue_states`. Merging a state with itself erases it and then indexes it through a reference
      that no longer leads anywhere; `dangling` is whatever state that yields. */
  function Merge(s: Store, first: string, second: string, dangling: UeState): Store {
    if first !in s.ues || second !in s.ues then s
    else
      var st := if first == second then dangling else MergeStates(s.ues[first], s.ues[second]);
      var ix := RemoveUe(RemoveUe(s.index, s.ues[first]), s.ues[second]);
      var left := s.ues - {second};
      Store(if first == second then left else left[first := st], AddUe(ix, st))
  }

  /** `remove_ue_state`. */
  function Remove(s: Store, k: string): Store {
    if k !in s.ues then s else Store(s.ues - {k}, RemoveUe(s.index, s.ues[k]))
  }

  /** `update_ue_gpsi`. */
  function SetGpsi(s: Store, k: string, gpsi: string): Store {
    if k !in s.ues then s
    else
      var st := s.ues[k];
      Store(s.ues[k := st.(gpsi := Some(gpsi))], s.index.(gpsi := (s.index.gpsi - Names(st.gpsi))[gpsi := k]))
  }

  /** `add_or_update_pdu_session`. */
  function PutSession(s: Store, k: string, p: PduSession): Store {
    if k !in s.ues then s
    else
      var st := s.ues[k];
      var i := FindId(st.pdus, p.id);
      var ix := if i < |st.pdus| then RemovePdu(s.index, k, st.pdus[i]) else s.index;
      Store(s.ues[k := st.(pdus := UeStates.PutPdu(st.pdus, p))], AddPdu(ix, k, p))
  }

  /** `remove_pdu_session`. */
  function DropSession(s: Store, k: string, id: string): Store {
    if k !in s.ues || FindId(s.ues[k].pdus, id) == |s.ues[k].pdus| then s
    else
      var st := s.ues[k];
      var i := FindId(st.pdus, id);
      Store(s.ues[k := st.(pdus := st.pdus[..i] + st.pdus[i + 1..])], RemovePdu(s.index, k, st.pdus[i]))
  }

  /** `remove_non_primary_ue_identifier`. */
  function DropIdentifier(s: Store, k: string, t: IdentifierType, value: string): Store {
    if k !in s.ues || s.ues[k].RemoveKnown(t, value).None? then s
    else
      var st := s.ues[k].RemoveKnown(t, value).value;
      Store(s.ues[k := st], AddUe(RemoveUe(s.index, st), st))
  }

  /** The provisional states older than the limit. */
  function Stale(ues: map<string, UeState>, now: int, maxAge: int): set<string> {
    set k | k in ues && ues[k].resolution == Provisional && now - ues[k].createdAt > maxAge
  }

  /** The names of every stored state under one index: what a scan of the store collects. */
  function Owned(ues: map<string, UeState>, a: Attr): Owners {
    map k | k in ues :: UeNames(a, ues[k])
  }

  function NamesOf(ues: map<string, UeState>, keys: set<string>, a: Attr): set<string> {
    AllNames(Owned(ues, a), keys)
  }

  function RemoveAll(s: Store, keys: set<string>): Store {
    Store(s.ues - keys,
          Indices(s.index.supi - NamesOf(s.ues, keys, BySupi), s.index.gpsi - NamesOf(s.ues, keys, ByGpsi),
                  s.index.ipv4 - NamesOf(s.ues, keys, ByIpv4), s.index.ipv6 - NamesOf(s.ues, keys, ByIpv6),
                  s.index.ipv6Prefix - NamesOf(s.ues, keys, ByIpv6Prefix)))
  }

  /** `cleanup_expired_provisional_states`. */
  function Cleanup(s: Store, now: int, maxAge: int): Store {
    RemoveAll(s, Stale(s.ues, now, maxAge))
  }

  // === Coherence ===

  ghost predicate Coherent(s: Store) {
    forall a: Attr :: Exact(s.index.Of(a), Owned(s.ues, a))
  }

  /** Coherence says just this: every name has one owner, and each index equals the scan. */
  lemma CoherentIsScan(s: Store)
    ensures Coherent(s) <==>
            forall a: Attr :: Unshared(Owned(s.ues, a)) && s.index.Of(a) == Scan(Owned(s.ues, a))
  {
    forall a: Attr
      ensures Exact(s.index.Of(a), Owned(s.ues, a)) <==>
              Unshared(Owned(s.ues, a)) && s.index.Of(a) == Scan(Owned(s.ues, a))
    {
      ExactIsScan(s.index.Of(a), Owned(s.ues, a));
    }
  }

  /** Stored states sit under their own primary key; SUPI, resolution and key agree. */
  ghost predicate Identified(key: string, st: UeState) {
    && st.key.PrimaryKey() == key
    && st.key.SingleIdentifier()
    && (st.supi.Some? <==> st.resolution == Resolved)
    && (st.supi.Some? ==> key == "supi:" + st.supi.value)
  }

  ghost predicate AllIdentified(s: Store) {
    forall k :: k in s.ues ==> Identified(k, s.ues[k])
  }

  ghost predicate Sound(s: Store) {
    Coherent(s) && AllIdentified(s)
  }

  lemma OwnedUpdate(ues: map<string, UeState>, a: Attr, k: string, st: UeState)
    ensures Owned(ues[k := st], a) == Owned(ues, a)[k := UeNames(a, st)]
  {
  }

  lemma OwnedErase(ues: map<string, UeState>, a: Attr, keys: set<string>)
    ensures Owned(ues - keys, a) == Owned(ues, a) - keys
  {
  }

  lemma IndexOfAdd(ix: Indices, st: UeState, a: Attr)
    ensures AddUe(ix, st).Of(a) == Put(ix.Of(a), UeNames(a, st), st.key.PrimaryKey())
    ensures RemoveUe(ix, st).Of(a) == ix.Of(a) - UeNames(a, st)
  {
  }
}
