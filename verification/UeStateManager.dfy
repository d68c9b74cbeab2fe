/** The UE state manager: map fields updated in place, index loops written out, each method proved
    to make of the store what the operation of the same meaning in UeStores says. */
module UeStateManagers {
  import opened Options
  import opened UeKeys
  import opened UeStates
  import opened UeStores
  import opened NameIndices
  import UeCoherence
  import UeRuns

  // === The inner loops over address lists ===

  lemma PutTwice(m: Index, a: set<string>, b: set<string>, key: string)
    ensures Put(Put(m, a, key), b, key) == Put(m, a + b, key)
  {
  }

  lemma PutOne(m: Index, n: string, key: string)
    ensures Put(m, {n}, key) == m[n := key]
  {
  }

  lemma TakeOne(s: seq<string>, i: nat)
    requires i < |s|
    ensures Elems(s[..i + 1]) == Elems(s[..i]) + {s[i]}
  {
    assert s[..i + 1] == s[..i] + [s[i]];
    ElemsAppend(s[..i], s[i]);
  }

  method PutOption(m: Index, name: Option<string>, key: string) returns (r: Index)
    ensures r == Put(m, Names(name), key)
  {
    r := if name.Some? then m[name.value := key] else m;
  }

  method EraseOption(m: Index, name: Option<string>) returns (r: Index)
    ensures r == m - Names(name)
  {
    r := if name.Some? then m - {name.value} else m;
  }

  method EraseOptionOwned(m: Index, name: Option<string>, key: string) returns (r: Index)
    ensures r == EraseOwned(m, Names(name), key)
  {
    r := if name.Some? && name.value in m && m[name.value] == key then m - {name.value} else m;
  }

  method PutEach(m: Index, names: seq<string>, key: string) returns (r: Index)
    ensures r == Put(m, Elems(names), key)
  {
    r := m;
    for i := 0 to |names|
      invariant r == Put(m, Elems(names[..i]), key)
    {
      r := r[names[i] := key];
      TakeOne(names, i);
      PutOne(Put(m, Elems(names[..i]), key), names[i], key);
      PutTwice(m, Elems(names[..i]), {names[i]}, key);
    }
    assert names[..|names|] == names;
  }

  method EraseEach(m: Index, names: seq<string>) returns (r: Index)
    ensures r == m - Elems(names)
  {
    r := m;
    for i := 0 to |names|
      invariant r == m - Elems(names[..i])
    {
      r := r - {names[i]};
      TakeOne(names, i);
    }
    assert names[..|names|] == names;
  }

  method EraseEachOwned(m: Index, names: seq<string>, key: string) returns (r: Index)
    ensures r == EraseOwned(m, Elems(names), key)
  {
    r := m;
    for i := 0 to |names|
      invariant r == EraseOwned(m, Elems(names[..i]), key)
    {
      if names[i] in r && r[names[i]] == key {
        r := r - {names[i]};
      }
      TakeOne(names, i);
    }
    assert names[..|names|] == names;
  }

  method AddKnownEach(start: UeState, t: IdentifierType, values: seq<string>) returns (st: UeState)
    ensures st == AddAllKnown(start, t, values)
  {
    st := start;
    for i := 0 to |values|
      invariant st == AddAllKnown(start, t, values[..i])
    {
      assert values[..i + 1][..i] == values[..i];
      st := st.AddKnown(t, values[i]);
    }
    assert values[..|values|] == values;
  }

  method MergeSessions(first: seq<PduSession>, second: seq<PduSession>) returns (sessions: seq<PduSession>)
    ensures sessions == MergePdus(first, second)
  {
    sessions := first;
    for i := 0 to |second|
      invariant sessions == MergePdus(first, second[..i])
    {
      assert second[..i + 1][..i] == second[..i];
      if FindId(sessions, second[i].id) == |sessions| {
        sessions := sessions + [second[i]];
      }
    }
    assert second[..|second|] == second;
  }

  /** The loops that lay the second state's identifiers and sessions into the first. */
  method MergeInto(first: UeState, second: UeState) returns (st: UeState)
    ensures st == MergeStates(first, second)
  {
    st := AddKnownEach(first, KnownIpv4, second.knownIpv4);
    st := AddKnownEach(st, KnownIpv6, second.knownIpv6);
    st := AddKnownEach(st, KnownGpsi, second.knownGpsi);
    var sessions := MergeSessions(first.pdus, second.pdus);
    st := st.(pdus := sessions);
  }

  // === The outer loops over sessions ===

  ghost function AddPdus(ix: Indices, key: string, pdus: seq<PduSession>): Indices {
    if pdus == [] then ix
    else AddPdu(AddPdus(ix, key, pdus[..|pdus| - 1]), key, pdus[|pdus| - 1])
  }

  ghost function ErasePdu(ix: Indices, p: PduSession): Indices {
    ix.(ipv4 := ix.ipv4 - PduNames(ByIpv4, p), ipv6 := ix.ipv6 - PduNames(ByIpv6, p),
        ipv6Prefix := ix.ipv6Prefix - PduNames(ByIpv6Prefix, p))
  }

  ghost function ErasePdus(ix: Indices, pdus: seq<PduSession>): Indices {
    if pdus == [] then ix else ErasePdu(ErasePdus(ix, pdus[..|pdus| - 1]), pdus[|pdus| - 1])
  }

  /** Adding session by session adds all the names at once. */
  lemma {:induction false} AddPdusAddsNames(ix: Indices, key: string, pdus: seq<PduSession>)
    ensures AddPdus(ix, key, pdus) ==
            ix.(ipv4 := Put(ix.ipv4, SessionNames(ByIpv4, pdus), key),
                ipv6 := Put(ix.ipv6, SessionNames(ByIpv6, pdus), key),
                ipv6Prefix := Put(ix.ipv6Prefix, SessionNames(ByIpv6Prefix, pdus), key))
  {
    if pdus != [] {
      var front, p := pdus[..|pdus| - 1], pdus[|pdus| - 1];
      AddPdusAddsNames(ix, key, front);
      PutTwice(ix.ipv4, SessionNames(ByIpv4, front), PduNames(ByIpv4, p), key);
      PutTwice(ix.ipv6, SessionNames(ByIpv6, front), PduNames(ByIpv6, p), key);
      PutTwice(ix.ipv6Prefix, SessionNames(ByIpv6Prefix, front), PduNames(ByIpv6Prefix, p), key);
    }
  }

  lemma EraseTwice(m: Index, a: set<string>, b: set<string>)
    ensures m - a - b == m - (a + b)
  {
  }

  lemma {:induction false} ErasePdusErasesNames(ix: Indices, pdus: seq<PduSession>)
    ensures ErasePdus(ix, pdus) ==
            ix.(ipv4 := ix.ipv4 - SessionNames(ByIpv4, pdus), ipv6 := ix.ipv6 - SessionNames(ByIpv6, pdus),
                ipv6Prefix := ix.ipv6Prefix - SessionNames(ByIpv6Prefix, pdus))
  {
    if pdus != [] {
      var front, p := pdus[..|pdus| - 1], pdus[|pdus| - 1];
      ErasePdusErasesNames(ix, front);
      EraseTwice(ix.ipv4, SessionNames(ByIpv4, front), PduNames(ByIpv4, p));
      EraseTwice(ix.ipv6, SessionNames(ByIpv6, front), PduNames(ByIpv6, p));
      EraseTwice(ix.ipv6Prefix, SessionNames(ByIpv6Prefix, front), PduNames(ByIpv6Prefix, p));
    }
  }

  class UeStateManager {
    var ues: map<string, UeState>
    var keyBySupi: Index
    var keyByGpsi: Index
    var keyByIpv4: Index
    var keyByIpv6: Index
    var keyByIpv6Prefix: Index

    ghost function Ix(): Indices
      reads this
    {
      Indices(keyBySupi, keyByGpsi, keyByIpv4, keyByIpv6, keyByIpv6Prefix)
    }

    ghost function Contents(): Store
      reads this
    {
      Store(ues, Ix())
    }

    constructor ()
      ensures Contents() == EMPTY && Sound(Contents())
    {
      ues := map[];
      keyBySupi, keyByGpsi, keyByIpv4, keyByIpv6, keyByIpv6Prefix := map[], map[], map[], map[], map[];
      new;
      UeRuns.EmptySound();
    }

    // === Index helpers ===

    method AddPduIndices(key: string, p: PduSession)
      modifies `keyByIpv4, `keyByIpv6, `keyByIpv6Prefix
      ensures Ix() == AddPdu(old(Ix()), key, p)
    {
      keyByIpv4 := PutOption(keyByIpv4, p.ipv4, key);
      keyByIpv6Prefix := PutEach(keyByIpv6Prefix, p.ipv6Prefixes, key);
      keyByIpv6 := PutEach(keyByIpv6, p.ipv6Addresses, key);
    }

    method RemovePduIndices(key: string, p: PduSession)
      modifies `keyByIpv4, `keyByIpv6, `keyByIpv6Prefix
      ensures Ix() == RemovePdu(old(Ix()), key, p)
    {
      keyByIpv4 := EraseOptionOwned(keyByIpv4, p.ipv4, key);
      keyByIpv6Prefix := EraseEachOwned(keyByIpv6Prefix, p.ipv6Prefixes, key);
      keyByIpv6 := EraseEachOwned(keyByIpv6, p.ipv6Addresses, key);
    }

    method AddUeIndices(st: UeState)
      modifies `keyBySupi, `keyByGpsi, `keyByIpv4, `keyByIpv6, `keyByIpv6Prefix
      ensures Ix() == AddUe(old(Ix()), st)
    {
      var key := st.key.PrimaryKey();
      keyBySupi := PutOption(keyBySupi, st.supi, key);
      keyByGpsi := PutOption(keyByGpsi, st.gpsi, key);
      ghost var start := Ix();
      for i := 0 to |st.pdus|
        invariant Ix() == AddPdus(start, key, st.pdus[..i])
      {
        assert st.pdus[..i + 1][..i] == st.pdus[..i];
        AddPduIndices(key, st.pdus[i]);
      }
      assert st.pdus[..|st.pdus|] == st.pdus;
      AddPdusAddsNames(start, key, st.pdus);
    }

    /** The body of the session loop in `remove_ue_indices`. */
    method ErasePduNames(p: PduSession)
      modifies `keyByIpv4, `keyByIpv6, `keyByIpv6Prefix
      ensures Ix() == ErasePdu(old(Ix()), p)
    {
      keyByIpv4 := EraseOption(keyByIpv4, p.ipv4);
      keyByIpv6Prefix := EraseEach(keyByIpv6Prefix, p.ipv6Prefixes);
      keyByIpv6 := EraseEach(keyByIpv6, p.ipv6Addresses);
    }

    method RemoveUeIndices(st: UeState)
      modifies `keyBySupi, `keyByGpsi, `keyByIpv4, `keyByIpv6, `keyByIpv6Prefix
      ensures Ix() == RemoveUe(old(Ix()), st)
    {
      keyBySupi := EraseOption(keyBySupi, st.supi);
      keyByGpsi := EraseOption(keyByGpsi, st.gpsi);
      ghost var start := Ix();
      for i := 0 to |st.pdus|
        invariant Ix() == ErasePdus(start, st.pdus[..i])
      {
        assert st.pdus[..i + 1][..i] == st.pdus[..i];
        ErasePduNames(st.pdus[i]);
      }
      assert st.pdus[..|st.pdus|] == st.pdus;
      ErasePdusErasesNames(start, st.pdus);
    }

    // === Operations ===

    method UpdateUeState(st: UeState)
      modifies this
      ensures Contents() == Update(old(Contents()), st)
    {
      var key := st.key.PrimaryKey();
      if key in ues {
        RemoveUeIndices(ues[key]);
        ues := ues[key := st];
      } else {
        ues := ues[key := st];
      }
      AddUeIndices(st);
    }

    method CreateOrUpdateProvisional(key: UeKey, data: Option<UeState>, now: int)
      modifies this
      ensures Contents() == Provision(old(Contents()), key, data, now)
    {
      var k := key.PrimaryKey();
      if k in ues {
        if data.Some? {
          var st := ues[k];
          if data.value.gpsi.Some? {
            st := st.(gpsi := data.value.gpsi);
          }
          var more := data.value.pdus;
          for i := 0 to |more|
            invariant st == ues[k].(gpsi := st.gpsi, pdus := PutPdus(ues[k].pdus, more[..i]))
            invariant st.gpsi == if data.value.gpsi.Some? then data.value.gpsi else ues[k].gpsi
          {
            st := st.(pdus := UeStates.PutPdu(st.pdus, more[i]));
            assert more[..i + 1][..i] == more[..i];
          }
          assert more[..|more|] == more;
          ues := ues[k := st];
        }
      } else {
        var st := if data.Some? then data.value else ProvisionalState(key, now);
        ues := ues[k := st];
        AddUeIndices(st);
      }
    }

    method PromoteToResolved(current: UeKey, supi: string) returns (outcome: Promotion)
      modifies this
      ensures outcome == PromotionOf(old(Contents()), current.PrimaryKey(), supi)
      ensures Contents() == Promote(old(Contents()), current.PrimaryKey(), supi)
    {
      var k := current.PrimaryKey();
      if k !in ues {
        return NotFound;
      }
      if !ValidSupi(supi) {
        return Rejected;
      }
      var supiKey := Single(SupiBased, supi).PrimaryKey();
      if k == supiKey {
        ues := ues[k := ues[k].ResolveSupi(supi)];
        return SameKey;
      }
      if supiKey in ues {
        return Blocked;
      }
      RemoveUeIndices(ues[k]);
      var promoted := ues[k].ResolveSupi(supi);
      ues := ues - {k};
      ues := ues[supiKey := promoted];
      AddUeIndices(promoted);
      return Promoted;
    }

    /** `dangling` is what the reference to a state merged with itself yields once that is erased. */
    method MergeUeStates(primary: UeKey, secondary: UeKey, dangling: UeState) returns (merged: bool)
      modifies this
      ensures merged <==> primary.PrimaryKey() in old(ues) && secondary.PrimaryKey() in old(ues)
      ensures Contents() == Merge(old(Contents()), primary.PrimaryKey(), secondary.PrimaryKey(), dangling)
    {
      var k, l := primary.PrimaryKey(), secondary.PrimaryKey();
      if k !in ues || l !in ues {
        return false;
      }
      RemoveUeIndices(ues[k]);
      RemoveUeIndices(ues[l]);
      if k == l {
        ues := ues - {l};
        AddUeIndices(dangling);
        return true;
      }
      var st := MergeInto(ues[k], ues[l]);
      MergeKeepsUnion(ues[k], ues[l]);
      ues := ues - {l};
      ues := ues[k := st];
      AddUeIndices(st);
      return true;
    }

    /** Find the key, clean up its indices, erase it. */
    method RemoveStored(k: string) returns (removed: bool)
      modifies this
      ensures removed <==> k in old(ues)
      ensures Contents() == Remove(old(Contents()), k)
    {
      removed := k in ues;
      if removed {
        RemoveUeIndices(ues[k]);
        ues := ues - {k};
      }
    }

    method RemoveUeState(key: UeKey) returns (removed: bool)
      modifies this
      ensures removed <==> key.PrimaryKey() in old(ues)
      ensures Contents() == Remove(old(Contents()), key.PrimaryKey())
    {
      removed := RemoveStored(key.PrimaryKey());
    }

    method UpdateUeGpsi(key: UeKey, gpsi: string) returns (found: bool)
      modifies this
      ensures found <==> key.PrimaryKey() in old(ues)
      ensures Contents() == SetGpsi(old(Contents()), key.PrimaryKey(), gpsi)
    {
      var k := key.PrimaryKey();
      found := k in ues;
      if found {
        if ues[k].gpsi.Some? {
          keyByGpsi := keyByGpsi - {ues[k].gpsi.value};
        }
        ues := ues[k := ues[k].(gpsi := Some(gpsi))];
        keyByGpsi := keyByGpsi[gpsi := k];
      }
    }

    method AddOrUpdatePduSession(key: UeKey, p: PduSession) returns (found: bool)
      modifies this
      ensures found <==> key.PrimaryKey() in old(ues)
      ensures Contents() == PutSession(old(Contents()), key.PrimaryKey(), p)
    {
      var k := key.PrimaryKey();
      if k !in ues {
        return false;
      }
      var pdus := ues[k].pdus;
      var i := 0;
      while i < |pdus|
        invariant i <= FindId(pdus, p.id)
        invariant Contents() == old(Contents())
      {
        if pdus[i].id == p.id {
          RemovePduIndices(k, pdus[i]);
          ues := ues[k := ues[k].(pdus := pdus[i := p])];
          AddPduIndices(k, p);
          return true;
        }
        i := i + 1;
      }
      ues := ues[k := ues[k].(pdus := pdus + [p])];
      AddPduIndices(k, p);
      return true;
    }

    /** The event is published only when the UE's SUPI is known. */
    method RemovePduSession(key: UeKey, id: string) returns (removed: bool, event: Option<(string, string)>)
      modifies this
      ensures removed <==> key.PrimaryKey() in old(ues) && HasId(old(ues)[key.PrimaryKey()].pdus, id)
      ensures event.Some? <==> removed && old(ues)[key.PrimaryKey()].supi.Some?
      ensures event.Some? ==> event.value == (old(ues)[key.PrimaryKey()].supi.value, id)
      ensures Contents() == DropSession(old(Contents()), key.PrimaryKey(), id)
    {
      var k := key.PrimaryKey();
      if k !in ues {
        return false, None;
      }
      var pdus := ues[k].pdus;
      var i := 0;
      while i < |pdus|
        invariant i <= FindId(pdus, id)
        invariant Contents() == old(Contents())
      {
        if pdus[i].id == id {
          RemovePduIndices(k, pdus[i]);
          ues := ues[k := ues[k].(pdus := pdus[..i] + pdus[i + 1..])];
          return true, if ues[k].supi.Some? then Some((ues[k].supi.value, id)) else None;
        }
        i := i + 1;
      }
      return false, None;
    }

    method RemoveNonPrimaryIdentifier(key: UeKey, t: IdentifierType, value: string) returns (removed: bool)
      modifies this
      ensures removed <==> key.PrimaryKey() in old(ues) && value in old(ues)[key.PrimaryKey()].Known(t)
      ensures Contents() == DropIdentifier(old(Contents()), key.PrimaryKey(), t, value)
    {
      var k := key.PrimaryKey();
      if k !in ues || ues[k].RemoveKnown(t, value).None? {
        return false;
      }
      ues := ues[k := ues[k].RemoveKnown(t, value).value];
      RemoveUeIndices(ues[k]);
      AddUeIndices(ues[k]);
      return true;
    }

    /** The keys to remove, in whatever order the map yields them. */
    method CollectStale(now: int, maxAge: int) returns (toRemove: seq<string>)
      ensures Elems(toRemove) == Stale(ues, now, maxAge)
    {
      toRemove := [];
      var unseen := ues.Keys;
      while unseen != {}
        invariant unseen <= ues.Keys
        invariant Elems(toRemove) == Stale(ues, now, maxAge) - unseen
        decreases |unseen|
      {
        var k :| k in unseen;
        unseen := unseen - {k};
        if ues[k].resolution == Provisional && now - ues[k].createdAt > maxAge {
          ElemsAppend(toRemove, k);
          toRemove := toRemove + [k];
        }
      }
    }

    method CleanupExpiredProvisional(now: int, maxAge: int)
      modifies this
      ensures Contents() == Cleanup(old(Contents()), now, maxAge)
    {
      var toRemove := CollectStale(now, maxAge);
      ghost var start := Contents();
      NoneRemoved(start, toRemove);
      for i := 0 to |toRemove|
        invariant Contents() == AfterFirst(start, toRemove, i)
      {
        OneMoreRemoved(start, toRemove, i);
        var _ := RemoveStored(toRemove[i]);
      }
      AllRemoved(start, toRemove, now, maxAge);
    }

    method GetBySupi(supi: string) returns (r: Option<UeState>)
      ensures r == UeRuns.LookupBySupi(Contents(), supi)
      ensures Sound(Contents()) ==>
                forall st :: r == Some(st) <==> exists k :: k in ues && ues[k] == st && st.supi == Some(supi)
    {
      if supi in keyBySupi && keyBySupi[supi] in ues {
        r := Some(ues[keyBySupi[supi]]);
      } else {
        r := None;
      }
      if Sound(Contents()) {
        forall st
          ensures r == Some(st) <==> exists k :: k in ues && ues[k] == st && st.supi == Some(supi)
        {
          UeRuns.LookupIsScan(Contents(), supi, st);
        }
      }
    }
  }

  // === Bulk removal, one key at a time ===

  /** The store after the first i of these keys have been removed. */
  ghost function AfterFirst(s: Store, keys: seq<string>, i: nat): Store
    requires i <= |keys|
  {
    RemoveAll(s, Elems(keys[..i]))
  }

  lemma NoneRemoved(s: Store, keys: seq<string>)
    ensures AfterFirst(s, keys, 0) == s
  {
    assert Elems(keys[..0]) == {};
    UeCoherence.SameIndices(RemoveAll(s, {}).index, s.index);
  }

  lemma EraseOneMore(m: Index, o: Owners, keys: set<string>, k: string)
    requires k in o
    ensures m - AllNames(o, keys + {k}) == m - AllNames(o, keys) - o[k]
  {
  }

  lemma NothingMore(o: Owners, keys: set<string>, k: string)
    requires k !in o
    ensures AllNames(o, keys + {k}) == AllNames(o, keys)
  {
  }

  lemma OneMoreRemoved(s: Store, keys: seq<string>, i: nat)
    requires i < |keys|
    ensures AfterFirst(s, keys, i + 1) == Remove(AfterFirst(s, keys, i), keys[i])
  {
    TakeOne(keys, i);
    RemoveAllOne(s, Elems(keys[..i]), keys[i]);
  }

  lemma AllRemoved(s: Store, keys: seq<string>, now: int, maxAge: int)
    requires Elems(keys) == Stale(s.ues, now, maxAge)
    ensures AfterFirst(s, keys, |keys|) == Cleanup(s, now, maxAge)
  {
    assert keys[..|keys|] == keys;
  }

  /** Removing one more key than a set equals removing the set and then the key. */
  lemma RemoveAllOne(s: Store, keys: set<string>, k: string)
    ensures RemoveAll(s, keys + {k}) == Remove(RemoveAll(s, keys), k)
  {
    var t, u := RemoveAll(s, keys), RemoveAll(s, keys + {k});
    if k in keys {
      assert keys + {k} == keys;
    } else {
      assert u.ues == t.ues - {k};
      forall a: Attr
        ensures u.index.Of(a) == Remove(t, k).index.Of(a)
      {
        UeCoherence.IndexOfRemoveAll(s, keys, a);
        UeCoherence.IndexOfRemoveAll(s, keys + {k}, a);
        if k in s.ues {
          EraseOneMore(s.index.Of(a), Owned(s.ues, a), keys, k);
          IndexOfAdd(t.index, t.ues[k], a);
        } else {
          NothingMore(Owned(s.ues, a), keys, k);
        }
      }
      UeCoherence.SameIndices(u.index, Remove(t, k).index);
    }
  }
}
