/** Exactly when each operation of the UE store keeps its indices equal to a scan and its states
    identified, and what follows for whole runs and for lookups. */
module UeCoherence {
  import opened Options
  import opened UeKeys
  import opened UeStates
  import opened UeStores
  import opened NameIndices

  // === Conditions a caller can check before the call ===

  /** No name of the state is indexed for another key. */
  ghost predicate NoConflict(ix: Indices, key: string, st: UeState) {
    forall a: Attr :: NoForeign(ix.Of(a), UeNames(a, st), key)
  }

  /** Overwriting or adding the session p: its addresses belong to nobody else, and an address given
      up by the overwritten session is not in another session of the same UE. */
  ghost predicate PutSafe(s: Store, k: string, p: PduSession) {
    k in s.ues ==>
      var pdus := s.ues[k].pdus;
      var i := FindId(pdus, p.id);
      && (forall a: Attr :: NoForeign(s.index.Of(a), PduNames(a, p), k))
      && (i < |pdus| ==> forall a: Attr, n ::
            n in PduNames(a, pdus[i]) && n in OtherNames(a, pdus, i) ==> n in PduNames(a, p))
  }

  /** Dropping a session: none of its addresses is in another session of the same UE. */
  ghost predicate DropSafe(s: Store, k: string, id: string) {
    k in s.ues ==>
      var pdus := s.ues[k].pdus;
      var i := FindId(pdus, id);
      i < |pdus| ==> forall a: Attr, n :: n in PduNames(a, pdus[i]) ==> n !in OtherNames(a, pdus, i)
  }

  ghost predicate GpsiSafe(s: Store, k: string, gpsi: string) {
    k in s.ues ==> NoForeign(s.index.gpsi, {gpsi}, k)
  }

  /** Laying data over a stored state brings no GPSI that is new to it, no address it does not have
      already, and loses no address of an overwritten session. */
  ghost predicate OverlaySafe(st: UeState, data: UeState) {
    && (data.gpsi.Some? ==> data.gpsi == st.gpsi)
    && forall a: Attr :: NoneNew(a, st.pdus, data.pdus) && NoneLost(a, st.pdus, data.pdus)
  }

  /** Updating a provisional state in place is safe when no indexed name comes or goes; creating one
      is safe when no name is taken and the data carries the key it is stored under. */
  ghost predicate ProvisionSafe(s: Store, key: UeKey, data: Option<UeState>) {
    var k := key.PrimaryKey();
    if k in s.ues then
      data.Some? ==> OverlaySafe(s.ues[k], data.value)
    else if data.Some? then
      Identified(k, data.value) && NoConflict(s.index, k, data.value)
    else
      key.SingleIdentifier()
  }

  /** Promotion must find an unresolved state whose key holds no SUPI of its own; same-key promotion
      must find a resolved one, on which it does nothing. */
  predicate PromoteSafe(s: Store, k: string, supi: string) {
    match PromotionOf(s, k, supi)
    case SameKey => s.ues[k].supi.Some?
    case Promoted => s.ues[k].supi.None? && !s.ues[k].key.CanPromoteToSupi()
    case _ => true
  }

  // === Each operation ===

  lemma EraseOne(m: Index, o: Owners, k: string)
    requires Exact(m, o) && k in o
    ensures Exact(m - o[k], o - {k})
  {
    assert AllNames(o, {k}) == o[k];
    EraseExact(m, o, {k});
  }

  /** Removal is always coherent, although it erases names without looking at their owner. */
  lemma RemoveCoherent(s: Store, k: string)
    requires Coherent(s)
    ensures Coherent(Remove(s, k))
  {
    if k in s.ues {
      forall a: Attr
        ensures Exact(Remove(s, k).index.Of(a), Owned(Remove(s, k).ues, a))
      {
        IndexOfAdd(s.index, s.ues[k], a);
        OwnedErase(s.ues, a, {k});
        EraseOne(s.index.Of(a), Owned(s.ues, a), k);
      }
    }
  }

  lemma IndexOfRemoveAll(s: Store, keys: set<string>, a: Attr)
    ensures RemoveAll(s, keys).index.Of(a) == s.index.Of(a) - NamesOf(s.ues, keys, a)
  {
  }

  lemma EraseOwners(m: Index, ues: map<string, UeState>, keys: set<string>, a: Attr)
    requires Exact(m, Owned(ues, a))
    ensures Exact(m - NamesOf(ues, keys, a), Owned(ues - keys, a))
  {
    OwnedErase(ues, a, keys);
    EraseExact(m, Owned(ues, a), keys);
  }

  /** Bulk removal of any set of states, as the provisional cleanup does it. */
  lemma RemoveAllCoherent(s: Store, keys: set<string>)
    requires Coherent(s)
    ensures Coherent(RemoveAll(s, keys))
  {
    var t := RemoveAll(s, keys);
    forall a: Attr
      ensures Exact(t.index.Of(a), Owned(t.ues, a))
    {
      IndexOfRemoveAll(s, keys, a);
      EraseOwners(s.index.Of(a), s.ues, keys, a);
    }
  }

  lemma InsertCoherentIff(s: Store, key: string, st: UeState)
    requires Coherent(s) && key !in s.ues && st.key.PrimaryKey() == key
    ensures Coherent(Store(s.ues[key := st], AddUe(s.index, st))) <==> NoConflict(s.index, key, st)
  {
    var t := Store(s.ues[key := st], AddUe(s.index, st));
    forall a: Attr
      ensures Exact(t.index.Of(a), Owned(t.ues, a)) <==> NoForeign(s.index.Of(a), UeNames(a, st), key)
    {
      IndexOfAdd(s.index, st, a);
      OwnedUpdate(s.ues, a, key, st);
      InsertExactIff(s.index.Of(a), Owned(s.ues, a), key, UeNames(a, st));
    }
  }

  lemma ReplaceCoherentIff(s: Store, key: string, st: UeState)
    requires Coherent(s) && key in s.ues && st.key.PrimaryKey() == key
    ensures Coherent(Store(s.ues[key := st], AddUe(RemoveUe(s.index, s.ues[key]), st))) <==>
            NoConflict(s.index, key, st)
  {
    var t := Store(s.ues[key := st], AddUe(RemoveUe(s.index, s.ues[key]), st));
    forall a: Attr
      ensures Exact(t.index.Of(a), Owned(t.ues, a)) <==> NoForeign(s.index.Of(a), UeNames(a, st), key)
    {
      IndexOfAdd(s.index, s.ues[key], a);
      IndexOfAdd(RemoveUe(s.index, s.ues[key]), st, a);
      OwnedUpdate(s.ues, a, key, st);
      ReplaceExactIff(s.index.Of(a), Owned(s.ues, a), key, UeNames(a, st));
    }
  }

  lemma UpdateCoherentIff(s: Store, st: UeState)
    requires Coherent(s)
    ensures Coherent(Update(s, st)) <==> NoConflict(s.index, st.key.PrimaryKey(), st)
  {
    var key := st.key.PrimaryKey();
    if key in s.ues {
      ReplaceCoherentIff(s, key, st);
    } else {
      InsertCoherentIff(s, key, st);
    }
  }

  /** A change of a state that the index neither sees nor needs to see. */
  lemma UntouchedIff(s: Store, k: string, st: UeState, a: Attr)
    requires Coherent(s) && k in s.ues
    ensures Exact(s.index.Of(a), Owned(s.ues[k := st], a)) <==> UeNames(a, st) == UeNames(a, s.ues[k])
  {
    OwnedUpdate(s.ues, a, k, st);
    UntouchedExactIff(s.index.Of(a), Owned(s.ues, a), k, UeNames(a, st));
  }

  lemma SetGpsiCoherentIff(s: Store, k: string, gpsi: string)
    requires Coherent(s)
    ensures Coherent(SetGpsi(s, k, gpsi)) <==> GpsiSafe(s, k, gpsi)
  {
    if k in s.ues {
      var st := s.ues[k].(gpsi := Some(gpsi));
      var t := SetGpsi(s, k, gpsi);
      forall a: Attr
        ensures Exact(t.index.Of(a), Owned(t.ues, a)) <==> (a == ByGpsi ==> NoForeign(s.index.gpsi, {gpsi}, k))
      {
        if a == ByGpsi {
          var m := s.index.gpsi - UeNames(ByGpsi, s.ues[k]);
          assert Exact(s.index.Of(ByGpsi), Owned(s.ues, ByGpsi));
          assert Put(m, {gpsi}, k) == m[gpsi := k];
          OwnedUpdate(s.ues, a, k, st);
          ReplaceExactIff(s.index.gpsi, Owned(s.ues, a), k, {gpsi});
        } else {
          UntouchedIff(s, k, st, a);
        }
      }
      assert Exact(t.index.Of(ByGpsi), Owned(t.ues, ByGpsi)) <==> GpsiSafe(s, k, gpsi);
    }
  }

  predicate Addressing(a: Attr) {
    a != BySupi && a != ByGpsi
  }

  lemma IndexOfRemovePdu(ix: Indices, key: string, p: PduSession, a: Attr)
    ensures RemovePdu(ix, key, p).Of(a) == EraseOwned(ix.Of(a), PduNames(a, p), key)
  {
  }

  lemma IndexOfAddPdu(ix: Indices, key: string, p: PduSession, a: Attr)
    ensures AddPdu(ix, key, p).Of(a) == Put(ix.Of(a), PduNames(a, p), key)
  {
  }

  /** One index after a session is replaced. */
  lemma ReplaceSessionAt(s: Store, k: string, i: nat, p: PduSession, a: Attr)
    requires Coherent(s) && k in s.ues && i < |s.ues[k].pdus|
    ensures var pdus := s.ues[k].pdus;
            var st := s.ues[k].(pdus := pdus[i := p]);
            var m := EraseOwned(s.index.Of(a), PduNames(a, pdus[i]), k);
            Exact(Put(m, PduNames(a, p), k), Owned(s.ues[k := st], a)) <==>
            && NoForeign(s.index.Of(a), PduNames(a, p), k)
            && forall n :: n in PduNames(a, pdus[i]) && n in OtherNames(a, pdus, i) ==> n in PduNames(a, p)
  {
    var pdus := s.ues[k].pdus;
    var st := s.ues[k].(pdus := pdus[i := p]);
    if Addressing(a) {
      OwnedUpdate(s.ues, a, k, st);
      SplitNames(a, pdus, i);
      ReplaceNames(a, pdus, i, p);
      SwapExactIff(s.index.Of(a), Owned(s.ues, a), k, OtherNames(a, pdus, i), PduNames(a, pdus[i]), PduNames(a, p));
    } else {
      UntouchedIff(s, k, st, a);
      assert Put(EraseOwned(s.index.Of(a), {}, k), {}, k) == s.index.Of(a);
    }
  }

  /** One index after a session is appended. */
  lemma AppendSessionAt(s: Store, k: string, p: PduSession, a: Attr)
    requires Coherent(s) && k in s.ues
    ensures var st := s.ues[k].(pdus := s.ues[k].pdus + [p]);
            Exact(Put(s.index.Of(a), PduNames(a, p), k), Owned(s.ues[k := st], a)) <==>
            NoForeign(s.index.Of(a), PduNames(a, p), k)
  {
    var pdus := s.ues[k].pdus;
    var st := s.ues[k].(pdus := pdus + [p]);
    if Addressing(a) {
      OwnedUpdate(s.ues, a, k, st);
      AppendNames(a, pdus, p);
      assert EraseOwned(s.index.Of(a), {}, k) == s.index.Of(a);
      SwapExactIff(s.index.Of(a), Owned(s.ues, a), k, SessionNames(a, pdus), {}, PduNames(a, p));
    } else {
      UntouchedIff(s, k, st, a);
      assert Put(s.index.Of(a), {}, k) == s.index.Of(a);
    }
  }

  lemma PutSessionCoherentIff(s: Store, k: string, p: PduSession)
    requires Coherent(s)
    ensures Coherent(PutSession(s, k, p)) <==> PutSafe(s, k, p)
  {
    if k in s.ues {
      var pdus := s.ues[k].pdus;
      var i := FindId(pdus, p.id);
      var t := PutSession(s, k, p);
      forall a: Attr
        ensures Exact(t.index.Of(a), Owned(t.ues, a)) <==>
                && NoForeign(s.index.Of(a), PduNames(a, p), k)
                && (i < |pdus| ==> forall n ::
                      n in PduNames(a, pdus[i]) && n in OtherNames(a, pdus, i) ==> n in PduNames(a, p))
      {
        if i < |pdus| {
          ReplaceSessionAt(s, k, i, p, a);
          IndexOfRemovePdu(s.index, k, pdus[i], a);
          IndexOfAddPdu(RemovePdu(s.index, k, pdus[i]), k, p, a);
        } else {
          AppendSessionAt(s, k, p, a);
          IndexOfAddPdu(s.index, k, p, a);
        }
      }
    }
  }

  /** One index after a session is dropped. */
  lemma DropSessionAt(s: Store, k: string, i: nat, a: Attr)
    requires Coherent(s) && k in s.ues && i < |s.ues[k].pdus|
    ensures var pdus := s.ues[k].pdus;
            var st := s.ues[k].(pdus := pdus[..i] + pdus[i + 1..]);
            Exact(EraseOwned(s.index.Of(a), PduNames(a, pdus[i]), k), Owned(s.ues[k := st], a)) <==>
            PduNames(a, pdus[i]) !! OtherNames(a, pdus, i)
  {
    var pdus := s.ues[k].pdus;
    var st := s.ues[k].(pdus := pdus[..i] + pdus[i + 1..]);
    if Addressing(a) {
      OwnedUpdate(s.ues, a, k, st);
      SplitNames(a, pdus, i);
      EraseExactIff(s.index.Of(a), Owned(s.ues, a), k, OtherNames(a, pdus, i), PduNames(a, pdus[i]));
    } else {
      UntouchedIff(s, k, st, a);
      assert EraseOwned(s.index.Of(a), {}, k) == s.index.Of(a);
    }
  }

  lemma DropSessionCoherentIff(s: Store, k: string, id: string)
    requires Coherent(s)
    ensures Coherent(DropSession(s, k, id)) <==> DropSafe(s, k, id)
  {
    if k in s.ues && FindId(s.ues[k].pdus, id) < |s.ues[k].pdus| {
      var pdus := s.ues[k].pdus;
      var i := FindId(pdus, id);
      var t := DropSession(s, k, id);
      forall a: Attr
        ensures Exact(t.index.Of(a), Owned(t.ues, a)) <==> PduNames(a, pdus[i]) !! OtherNames(a, pdus, i)
      {
        IndexOfRemovePdu(s.index, k, pdus[i], a);
        DropSessionAt(s, k, i, a);
      }
    }
  }

  lemma MergedUeNames(a: Attr, one: UeState, two: UeState)
    ensures var st := MergeStates(one, two);
            && st.key == one.key
            && UeNames(a, st) <= UeNames(a, one) + UeNames(a, two)
  {
    MergeKeepsUnion(one, two);
    MergedNames(a, one.pdus, two.pdus);
  }

  /** One index after a merge. */
  lemma MergeAt(s: Store, first: string, second: string, dangling: UeState, a: Attr)
    requires Coherent(s) && first in s.ues && second in s.ues && first != second
    requires s.ues[first].key.PrimaryKey() == first
    ensures var t := Merge(s, first, second, dangling); Exact(t.index.Of(a), Owned(t.ues, a))
  {
    var one, two := s.ues[first], s.ues[second];
    var st := MergeStates(one, two);
    IndexOfAdd(s.index, one, a);
    IndexOfAdd(RemoveUe(s.index, one), two, a);
    IndexOfAdd(RemoveUe(RemoveUe(s.index, one), two), st, a);
    OwnedErase(s.ues, a, {second});
    OwnedUpdate(s.ues - {second}, a, first, st);
    MergedUeNames(a, one, two);
    MergeExact(s.index.Of(a), Owned(s.ues, a), first, second, UeNames(a, st));
  }

  /** Merging two different UEs never disturbs the indices, not even when session ids clash. */
  lemma MergeCoherent(s: Store, first: string, second: string, dangling: UeState)
    requires Coherent(s) && AllIdentified(s) && first != second
    ensures Coherent(Merge(s, first, second, dangling))
  {
    if first in s.ues && second in s.ues {
      forall a: Attr
        ensures var t := Merge(s, first, second, dangling); Exact(t.index.Of(a), Owned(t.ues, a))
      {
        MergeAt(s, first, second, dangling, a);
      }
    }
  }

  /** What a merge of a UE with itself indexes for the state it has just erased is already there. */
  ghost predicate MergeSafe(s: Store, first: string, second: string, dangling: UeState) {
    first == second && first in s.ues ==>
      forall a: Attr, n :: n in UeNames(a, dangling) ==>
        n in Remove(s, first).index.Of(a) && Remove(s, first).index.Of(a)[n] == dangling.key.PrimaryKey()
  }

  lemma RemovedTwice(m: Index, names: set<string>)
    ensures m - names - names == m - names
  {
  }

  /** Merging a UE with itself removes it and indexes the dangling state. */
  lemma MergeSelfIndex(s: Store, k: string, dangling: UeState, a: Attr)
    requires k in s.ues
    ensures Merge(s, k, k, dangling).ues == Remove(s, k).ues
    ensures Merge(s, k, k, dangling).index.Of(a) ==
            Put(Remove(s, k).index.Of(a), UeNames(a, dangling), dangling.key.PrimaryKey())
  {
    var st := s.ues[k];
    IndexOfAdd(s.index, st, a);
    IndexOfAdd(RemoveUe(s.index, st), st, a);
    IndexOfAdd(RemoveUe(RemoveUe(s.index, st), st), dangling, a);
    RemovedTwice(s.index.Of(a), UeNames(a, st));
  }

  lemma MergeSelfAt(s: Store, k: string, dangling: UeState, a: Attr)
    requires Coherent(s) && k in s.ues
    ensures var t, m := Merge(s, k, k, dangling), Remove(s, k).index.Of(a);
            Exact(t.index.Of(a), Owned(t.ues, a)) <==>
            forall n :: n in UeNames(a, dangling) ==> n in m && m[n] == dangling.key.PrimaryKey()
  {
    var r := Remove(s, k);
    RemoveCoherent(s, k);
    assert Exact(r.index.Of(a), Owned(r.ues, a));
    MergeSelfIndex(s, k, dangling, a);
    PutExactIff(r.index.Of(a), Owned(r.ues, a), UeNames(a, dangling), dangling.key.PrimaryKey());
  }

  lemma MergeSelfCoherentIff(s: Store, k: string, dangling: UeState)
    requires Coherent(s) && k in s.ues
    ensures Coherent(Merge(s, k, k, dangling)) <==> MergeSafe(s, k, k, dangling)
  {
    forall a: Attr {
      MergeSelfAt(s, k, dangling, a);
    }
  }

  /** A merge is safe whatever a dangling reference yields exactly when it is given two different
      keys, or one that is not stored. */
  lemma MergeAlwaysCoherentIff(s: Store, first: string, second: string)
    requires Sound(s)
    ensures (forall d: UeState :: Coherent(Merge(s, first, second, d))) <==> first != second || first !in s.ues
  {
    if first != second {
      forall d: UeState
        ensures Coherent(Merge(s, first, second, d))
      {
        MergeCoherent(s, first, second, d);
      }
    } else if first in s.ues {
      var d := s.ues[first].(supi := Some(""));
      MergeSelfAt(s, first, d, BySupi);
      RemoveCoherent(s, first);
      assert "" in UeNames(BySupi, d) && d.key.PrimaryKey() == first;
      assert Exact(Remove(s, first).index.Of(BySupi), Owned(Remove(s, first).ues, BySupi));
      assert !Coherent(Merge(s, first, second, d));
    }
  }

  lemma SameIndices(x: Indices, y: Indices)
    requires forall a: Attr :: x.Of(a) == y.Of(a)
    ensures x == y
  {
    assert x.Of(BySupi) == y.Of(BySupi) && x.Of(ByGpsi) == y.Of(ByGpsi) && x.Of(ByIpv4) == y.Of(ByIpv4);
    assert x.Of(ByIpv6) == y.Of(ByIpv6) && x.Of(ByIpv6Prefix) == y.Of(ByIpv6Prefix);
  }

  lemma RemoveKnownFacts(st: UeState, t: IdentifierType, value: string)
    requires st.key.SingleIdentifier() && st.RemoveKnown(t, value).Some?
    ensures var next := st.RemoveKnown(t, value).value;
            && next.key.SingleIdentifier() && next.key.PrimaryKey() == st.key.PrimaryKey()
            && next.supi == st.supi && next.gpsi == st.gpsi && next.pdus == st.pdus && next.resolution == st.resolution
  {
    SingleDemotion(st.key);
  }

  lemma RefreshCoherent(s: Store, k: string, st: UeState)
    requires Coherent(s) && k in s.ues && st.key.PrimaryKey() == k
    requires forall a: Attr :: UeNames(a, st) == UeNames(a, s.ues[k])
    ensures AddUe(RemoveUe(s.index, st), st) == s.index
    ensures Coherent(s.(ues := s.ues[k := st]))
  {
    forall a: Attr
      ensures AddUe(RemoveUe(s.index, st), st).Of(a) == s.index.Of(a)
      ensures Exact(s.index.Of(a), Owned(s.ues[k := st], a))
    {
      IndexOfAdd(s.index, st, a);
      IndexOfAdd(RemoveUe(s.index, st), st, a);
      RefreshIsIdentity(s.index.Of(a), Owned(s.ues, a), k);
      UntouchedIff(s, k, st, a);
    }
    SameIndices(AddUe(RemoveUe(s.index, st), st), s.index);
  }

  lemma DropIdentifierIdentified(s: Store, k: string, t: IdentifierType, value: string)
    requires AllIdentified(s) && k in s.ues && s.ues[k].RemoveKnown(t, value).Some?
    ensures AllIdentified(s.(ues := s.ues[k := s.ues[k].RemoveKnown(t, value).value]))
  {
    RemoveKnownFacts(s.ues[k], t, value);
  }

  /** Removing a known identifier, even when that demotes the key, leaves keys and indices alone. */
  lemma DropIdentifierSound(s: Store, k: string, t: IdentifierType, value: string)
    requires Sound(s)
    ensures Sound(DropIdentifier(s, k, t, value))
    ensures DropIdentifier(s, k, t, value).index == s.index
  {
    if k in s.ues && s.ues[k].RemoveKnown(t, value).Some? {
      var st := s.ues[k].RemoveKnown(t, value).value;
      RemoveKnownFacts(s.ues[k], t, value);
      RefreshCoherent(s, k, st);
      DropIdentifierIdentified(s, k, t, value);
      assert DropIdentifier(s, k, t, value) == s.(ues := s.ues[k := st]);
    }
  }

  lemma OverlayNamesIff(st: UeState, data: UeState)
    ensures (forall a: Attr :: UeNames(a, Overlay(st, data)) == UeNames(a, st)) <==> OverlaySafe(st, data)
  {
    var next := Overlay(st, data);
    forall a: Attr
      ensures a != BySupi && a != ByGpsi ==>
                (UeNames(a, next) == UeNames(a, st) <==> NoneNew(a, st.pdus, data.pdus) && NoneLost(a, st.pdus, data.pdus))
      ensures a == BySupi || a == ByGpsi ==> NoneNew(a, st.pdus, data.pdus) && NoneLost(a, st.pdus, data.pdus)
    {
      SameNamesIff(a, st.pdus, data.pdus);
    }
    assert UeNames(BySupi, next) == UeNames(BySupi, st);
    GpsiNamesIff(st, data);
  }

  lemma GpsiNamesIff(st: UeState, data: UeState)
    ensures UeNames(ByGpsi, Overlay(st, data)) == UeNames(ByGpsi, st) <==> (data.gpsi.Some? ==> data.gpsi == st.gpsi)
  {
    if data.gpsi.Some? {
      assert data.gpsi.value in UeNames(ByGpsi, Overlay(st, data));
    }
  }

  /** The branch that changes an existing state without refreshing the indices. */
  lemma OverlayCoherentIff(s: Store, key: UeKey, data: UeState, now: int)
    requires Coherent(s) && key.PrimaryKey() in s.ues
    ensures Coherent(Provision(s, key, Some(data), now)) <==> ProvisionSafe(s, key, Some(data))
  {
    var k := key.PrimaryKey();
    forall a: Attr {
      UntouchedIff(s, k, Overlay(s.ues[k], data), a);
    }
    OverlayNamesIff(s.ues[k], data);
  }

  /** The caller in the session manager passes data without PDU sessions: the indices stay right
      exactly when it brings no new GPSI. */
  lemma OverlayWithoutSessions(s: Store, key: UeKey, data: UeState)
    requires key.PrimaryKey() in s.ues && data.pdus == []
    ensures ProvisionSafe(s, key, Some(data)) <==> data.gpsi.None? || data.gpsi == s.ues[key.PrimaryKey()].gpsi
  {
  }

  lemma NewIdentified(s: Store, k: string, st: UeState, ix: Indices)
    requires AllIdentified(s)
    ensures AllIdentified(Store(s.ues[k := st], ix)) <==> Identified(k, st)
  {
    assert s.ues[k := st][k] == st;
  }

  lemma BareHasNoNames(key: UeKey, now: int)
    ensures forall a: Attr :: UeNames(a, ProvisionalState(key, now)) == {}
  {
  }

  lemma ProvisionNewSoundIff(s: Store, key: UeKey, data: Option<UeState>, now: int)
    requires Sound(s) && key.PrimaryKey() !in s.ues
    ensures Sound(Provision(s, key, data, now)) <==> ProvisionSafe(s, key, data)
  {
    var k := key.PrimaryKey();
    var st := if data.Some? then data.value else ProvisionalState(key, now);
    NewIdentified(s, k, st, AddUe(s.index, st));
    if Identified(k, st) {
      InsertCoherentIff(s, k, st);
      if data.None? {
        BareHasNoNames(key, now);
      }
    }
  }

  /** Same-key promotion of an unresolved state adds a SUPI the index never learns of. */
  lemma PromoteSameKeyIff(s: Store, k: string, supi: string)
    requires Sound(s) && PromotionOf(s, k, supi) == SameKey
    ensures Sound(Promote(s, k, supi)) <==> s.ues[k].supi.Some?
  {
    var st := s.ues[k].ResolveSupi(supi);
    if s.ues[k].supi.None? {
      UntouchedIff(s, k, st, BySupi);
      assert supi in UeNames(BySupi, st);
      assert !Exact(Promote(s, k, supi).index.Of(BySupi), Owned(Promote(s, k, supi).ues, BySupi));
    } else {
      assert s.ues[k := st] == s.ues;
      assert Promote(s, k, supi) == s;
    }
  }

  lemma PromoteMovesIff(s: Store, k: string, supi: string)
    requires Sound(s) && PromotionOf(s, k, supi) == Promoted
    ensures Sound(Promote(s, k, supi)) <==> PromoteSafe(s, k, supi)
  {
    var st := s.ues[k].ResolveSupi(supi);
    var t := Promote(s, k, supi);
    var key := "supi:" + supi;
    assert t.ues[key] == st;
    if PromoteSafe(s, k, supi) {
      SingleSupi(supi);
      RemoveCoherent(s, k);
      var r := Remove(s, k);
      forall a: Attr
        ensures NoForeign(r.index.Of(a), UeNames(a, st), key)
      {
        FreshNames(s, k, st, supi, a);
      }
      InsertCoherentIff(r, key, st);
    } else if s.ues[k].supi.Some? {
      assert st == s.ues[k];
      assert t.ues[key].key.PrimaryKey() == k;
    } else {
      SingleSupiKey(s.ues[k].key);
      assert t.ues[key].key.PrimaryKey() == k;
    }
  }

  lemma SingleSupi(supi: string)
    ensures Single(SupiBased, supi).SingleIdentifier()
  {
    assert Single(SupiBased, supi).SingleOf(SupiBased);
  }

  lemma SingleSupiKey(key: UeKey)
    requires key.SingleIdentifier() && key.CanPromoteToSupi()
    ensures key.PromotedToSupi().PrimaryKey() == key.PrimaryKey()
  {
  }

  /** The names of a promoted state are free once the old entry is gone. */
  lemma FreshNames(s: Store, k: string, st: UeState, supi: string, a: Attr)
    requires Sound(s) && k in s.ues && "supi:" + supi !in s.ues
    requires s.ues[k].supi.None? && st == s.ues[k].ResolveSupi(supi)
    ensures forall n :: n in UeNames(a, st) ==> n !in Remove(s, k).index.Of(a)
  {
    IndexOfAdd(s.index, s.ues[k], a);
    var m, o := s.index.Of(a), Owned(s.ues, a);
    assert Exact(m, o);
    forall n | n in UeNames(a, st)
      ensures n !in m - UeNames(a, s.ues[k])
    {
      if a == BySupi && n in m {
        assert false;
      }
    }
  }
}
