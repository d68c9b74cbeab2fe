/** Whole runs of the UE store: coherence from the empty store onwards, what a resolved identity
    survives, and what the lookups then return. */
module UeRuns {
  import opened Options
  import opened UeKeys
  import opened UeStates
  import opened UeStores
  import opened NameIndices
  import opened UeCoherence

  datatype Op =
    | DoUpdate(st: UeState)
    | DoProvision(key: UeKey, data: Option<UeState>, now: int)
    | DoPromote(k: string, supi: string)
    | DoMerge(first: string, second: string, dangling: UeState)
    | DoRemove(k: string)
    | DoSetGpsi(k: string, gpsi: string)
    | DoPutSession(k: string, p: PduSession)
    | DoDropSession(k: string, id: string)
    | DoDropIdentifier(k: string, t: IdentifierType, value: string)
    | DoCleanup(now: int, maxAge: int)

  function Step(s: Store, op: Op): Store {
    match op
    case DoUpdate(st) => Update(s, st)
    case DoProvision(key, data, now) => Provision(s, key, data, now)
    case DoPromote(k, supi) => Promote(s, k, supi)
    case DoMerge(first, second, dangling) => Merge(s, first, second, dangling)
    case DoRemove(k) => Remove(s, k)
    case DoSetGpsi(k, gpsi) => SetGpsi(s, k, gpsi)
    case DoPutSession(k, p) => PutSession(s, k, p)
    case DoDropSession(k, id) => DropSession(s, k, id)
    case DoDropIdentifier(k, t, value) => DropIdentifier(s, k, t, value)
    case DoCleanup(now, maxAge) => Cleanup(s, now, maxAge)
  }

  /** A promotion onto a SUPI key that is taken waits for the lock its own thread holds: neither it nor
      any later call returns. Every other call does. */
  predicate Returns(s: Store, op: Op) {
    op.DoPromote? ==> PromotionOf(s, op.k, op.supi) != Blocked
  }

  /** The guard of each operation, on the store before the call. */
  ghost predicate Safe(s: Store, op: Op) {
    match op
    case DoUpdate(st) => Identified(st.key.PrimaryKey(), st) && NoConflict(s.index, st.key.PrimaryKey(), st)
    case DoProvision(key, data, now) => ProvisionSafe(s, key, data)
    case DoPromote(k, supi) => PromoteSafe(s, k, supi)
    case DoMerge(first, second, dangling) => MergeSafe(s, first, second, dangling)
    case DoSetGpsi(k, gpsi) => GpsiSafe(s, k, gpsi)
    case DoPutSession(k, p) => PutSafe(s, k, p)
    case DoDropSession(k, id) => DropSafe(s, k, id)
    case _ => true
  }

  lemma UpdateSoundIff(s: Store, st: UeState)
    requires Sound(s)
    ensures Sound(Update(s, st)) <==> Identified(st.key.PrimaryKey(), st) && NoConflict(s.index, st.key.PrimaryKey(), st)
  {
    UpdateCoherentIff(s, st);
    assert Update(s, st).ues[st.key.PrimaryKey()] == st;
  }

  lemma ProvisionSoundIff(s: Store, key: UeKey, data: Option<UeState>, now: int)
    requires Sound(s)
    ensures Sound(Provision(s, key, data, now)) <==> ProvisionSafe(s, key, data)
  {
    if key.PrimaryKey() !in s.ues {
      ProvisionNewSoundIff(s, key, data, now);
    } else if data.Some? {
      OverlayCoherentIff(s, key, data.value, now);
    }
  }

  lemma PromoteSoundIff(s: Store, k: string, supi: string)
    requires Sound(s) && PromotionOf(s, k, supi) != Blocked
    ensures Sound(Promote(s, k, supi)) <==> PromoteSafe(s, k, supi)
  {
    if PromotionOf(s, k, supi) == SameKey {
      PromoteSameKeyIff(s, k, supi);
    } else if PromotionOf(s, k, supi) == Promoted {
      PromoteMovesIff(s, k, supi);
    }
  }

  lemma MergeSoundIff(s: Store, first: string, second: string, dangling: UeState)
    requires Sound(s)
    ensures Sound(Merge(s, first, second, dangling)) <==> MergeSafe(s, first, second, dangling)
  {
    if first != second {
      MergeCoherent(s, first, second, dangling);
      MergeIdentified(s, first, second, dangling);
    } else if first in s.ues {
      MergeSelfCoherentIff(s, first, dangling);
    }
  }

  lemma MergeIdentified(s: Store, first: string, second: string, dangling: UeState)
    requires AllIdentified(s) && first != second
    ensures AllIdentified(Merge(s, first, second, dangling))
  {
    if first in s.ues && second in s.ues {
      MergeKeepsUnion(s.ues[first], s.ues[second]);
    }
  }

  lemma SetGpsiSoundIff(s: Store, k: string, gpsi: string)
    requires Sound(s)
    ensures Sound(SetGpsi(s, k, gpsi)) <==> GpsiSafe(s, k, gpsi)
  {
    SetGpsiCoherentIff(s, k, gpsi);
  }

  lemma PutSessionSoundIff(s: Store, k: string, p: PduSession)
    requires Sound(s)
    ensures Sound(PutSession(s, k, p)) <==> PutSafe(s, k, p)
  {
    PutSessionCoherentIff(s, k, p);
  }

  lemma DropSessionSoundIff(s: Store, k: string, id: string)
    requires Sound(s)
    ensures Sound(DropSession(s, k, id)) <==> DropSafe(s, k, id)
  {
    DropSessionCoherentIff(s, k, id);
  }

  lemma RemoveSound(s: Store, k: string)
    requires Sound(s)
    ensures Sound(Remove(s, k))
  {
    RemoveCoherent(s, k);
  }

  lemma CleanupSound(s: Store, now: int, maxAge: int)
    requires Sound(s)
    ensures Sound(Cleanup(s, now, maxAge))
  {
    RemoveAllCoherent(s, Stale(s.ues, now, maxAge));
  }

  /** One call keeps the store sound exactly when its guard holds. */
  lemma StepSoundIff(s: Store, op: Op)
    requires Sound(s) && Returns(s, op)
    ensures Sound(Step(s, op)) <==> Safe(s, op)
  {
    match op
    case DoUpdate(st) => UpdateSoundIff(s, st);
    case DoProvision(key, data, now) => ProvisionSoundIff(s, key, data, now);
    case DoPromote(k, supi) => PromoteSoundIff(s, k, supi);
    case DoMerge(first, second, dangling) => MergeSoundIff(s, first, second, dangling);
    case DoRemove(k) => RemoveSound(s, k);
    case DoSetGpsi(k, gpsi) => SetGpsiSoundIff(s, k, gpsi);
    case DoPutSession(k, p) => PutSessionSoundIff(s, k, p);
    case DoDropSession(k, id) => DropSessionSoundIff(s, k, id);
    case DoDropIdentifier(k, t, value) => DropIdentifierSound(s, k, t, value);
    case DoCleanup(now, maxAge) => CleanupSound(s, now, maxAge);
  }

  function Run(s: Store, ops: seq<Op>): Store
    decreases ops
  {
    if ops == [] then s else Run(Step(s, ops[0]), ops[1..])
  }

  /** Every call of the run returns. */
  predicate ReturningRun(s: Store, ops: seq<Op>)
    decreases ops
  {
    ops != [] ==> Returns(s, ops[0]) && ReturningRun(Step(s, ops[0]), ops[1..])
  }

  ghost predicate SafeRun(s: Store, ops: seq<Op>)
    decreases ops
  {
    ops != [] ==> Safe(s, ops[0]) && SafeRun(Step(s, ops[0]), ops[1..])
  }

  /** Every store along the run is sound. */
  ghost predicate SoundRun(s: Store, ops: seq<Op>)
    decreases ops
  {
    Sound(s) && (ops != [] ==> SoundRun(Step(s, ops[0]), ops[1..]))
  }

  /** A run stays sound throughout exactly when every call's guard held when it was made. */
  lemma {:induction false} RunSoundIff(s: Store, ops: seq<Op>)
    requires Sound(s) && ReturningRun(s, ops)
    ensures SoundRun(s, ops) <==> SafeRun(s, ops)
    decreases ops
  {
    if ops != [] {
      StepSoundIff(s, ops[0]);
      if Safe(s, ops[0]) {
        RunSoundIff(Step(s, ops[0]), ops[1..]);
      } else {
        assert !SoundRun(Step(s, ops[0]), ops[1..]);
      }
    }
  }

  lemma EmptySound()
    ensures Sound(EMPTY)
  {
    forall a: Attr
      ensures Exact(EMPTY.index.Of(a), Owned(EMPTY.ues, a))
    {
      assert EMPTY.index.Of(a) == map[];
    }
  }

  // === Resolved identities ===

  /** The calls that take the state stored under k away or overwrite it. */
  predicate Replaces(op: Op, k: string) {
    match op
    case DoUpdate(st) => st.key.PrimaryKey() == k
    case DoRemove(key) => key == k
    case DoMerge(first, second, _) => second == k
    case _ => false
  }

  ghost predicate ResolvedAs(s: Store, supi: string) {
    var k := "supi:" + supi;
    k in s.ues && s.ues[k].supi == Some(supi) && s.ues[k].resolution == Resolved
  }

  lemma UpdateKeepsResolved(s: Store, st: UeState, supi: string)
    requires ResolvedAs(s, supi) && st.key.PrimaryKey() != "supi:" + supi
    ensures ResolvedAs(Update(s, st), supi)
  {
  }

  lemma ProvisionKeepsResolved(s: Store, key: UeKey, data: Option<UeState>, now: int, supi: string)
    requires ResolvedAs(s, supi)
    ensures ResolvedAs(Provision(s, key, data, now), supi)
  {
  }

  lemma PromoteKeepsResolvedIff(s: Store, k: string, newSupi: string, supi: string)
    requires ResolvedAs(s, supi)
    ensures ResolvedAs(Promote(s, k, newSupi), supi) <==>
            !(k == "supi:" + supi && PromotionOf(s, k, newSupi) == Promoted)
  {
    assert "supi:" + newSupi == "supi:" + supi ==> ("supi:" + newSupi)[5..] == ("supi:" + supi)[5..];
  }

  lemma MergeKeepsResolved(s: Store, first: string, second: string, dangling: UeState, supi: string)
    requires ResolvedAs(s, supi) && second != "supi:" + supi
    ensures ResolvedAs(Merge(s, first, second, dangling), supi)
  {
    if first in s.ues && second in s.ues {
      MergeKeepsUnion(s.ues[first], s.ues[second]);
    }
  }

  lemma DropIdentifierKeepsResolved(s: Store, key: string, t: IdentifierType, value: string, supi: string)
    requires AllIdentified(s) && ResolvedAs(s, supi)
    ensures ResolvedAs(DropIdentifier(s, key, t, value), supi)
  {
    if key in s.ues && s.ues[key].RemoveKnown(t, value).Some? {
      RemoveKnownFacts(s.ues[key], t, value);
    }
  }

  lemma PutSessionKeepsResolved(s: Store, k: string, p: PduSession, supi: string)
    requires ResolvedAs(s, supi)
    ensures ResolvedAs(PutSession(s, k, p), supi)
  {
  }

  lemma DropSessionKeepsResolved(s: Store, k: string, id: string, supi: string)
    requires ResolvedAs(s, supi)
    ensures ResolvedAs(DropSession(s, k, id), supi)
  {
  }

  lemma SetGpsiKeepsResolved(s: Store, k: string, gpsi: string, supi: string)
    requires ResolvedAs(s, supi)
    ensures ResolvedAs(SetGpsi(s, k, gpsi), supi)
  {
  }

  lemma CleanupKeepsResolved(s: Store, now: int, maxAge: int, supi: string)
    requires ResolvedAs(s, supi)
    ensures ResolvedAs(Cleanup(s, now, maxAge), supi)
  {
    assert "supi:" + supi !in Stale(s.ues, now, maxAge);
  }

  /** The call promotes the UE that is resolved as supi to another SUPI. */
  predicate MovesAway(s: Store, op: Op, supi: string) {
    op.DoPromote? && op.k == "supi:" + supi && PromotionOf(s, op.k, op.supi) == Promoted
  }

  /** Apart from calls that remove, overwrite or merge away the UE, exactly its promotion to another,
      unused SUPI loses the identity. */
  lemma StepKeepsResolvedIff(s: Store, op: Op, supi: string)
    requires AllIdentified(s) && ResolvedAs(s, supi) && !Replaces(op, "supi:" + supi)
    ensures ResolvedAs(Step(s, op), supi) <==> !MovesAway(s, op, supi)
  {
    match op
    case DoUpdate(st) => UpdateKeepsResolved(s, st, supi);
    case DoProvision(key, data, now) => ProvisionKeepsResolved(s, key, data, now, supi);
    case DoPromote(k, newSupi) => PromoteKeepsResolvedIff(s, k, newSupi, supi);
    case DoMerge(first, second, dangling) => MergeKeepsResolved(s, first, second, dangling, supi);
    case DoRemove(k) =>
    case DoSetGpsi(k, gpsi) => SetGpsiKeepsResolved(s, k, gpsi, supi);
    case DoPutSession(k, p) => PutSessionKeepsResolved(s, k, p, supi);
    case DoDropSession(k, id) => DropSessionKeepsResolved(s, k, id, supi);
    case DoDropIdentifier(key, t, value) => DropIdentifierKeepsResolved(s, key, t, value, supi);
    case DoCleanup(now, maxAge) => CleanupKeepsResolved(s, now, maxAge, supi);
  }

  /** Once resolved, a UE stays resolved under its SUPI key through any safe run that neither
      removes it, overwrites it, nor merges it away. */
  lemma {:induction false} ResolvedForGood(s: Store, ops: seq<Op>, supi: string)
    requires Sound(s) && ReturningRun(s, ops) && SafeRun(s, ops) && ResolvedAs(s, supi)
    requires forall i :: 0 <= i < |ops| ==> !Replaces(ops[i], "supi:" + supi)
    ensures ResolvedAs(Run(s, ops), supi)
    decreases ops
  {
    if ops != [] {
      StepKeepsResolvedIff(s, ops[0], supi);
      StepSoundIff(s, ops[0]);
      ResolvedForGood(Step(s, ops[0]), ops[1..], supi);
    }
  }

  /** Promotion resolves the UE under its SUPI, with its sessions, and frees the old key. */
  lemma PromotionResolves(s: Store, k: string, supi: string)
    requires Sound(s) && PromotionOf(s, k, supi) == Promoted && PromoteSafe(s, k, supi)
    ensures var t := Promote(s, k, supi);
            && Sound(t) && ResolvedAs(t, supi) && k !in t.ues
            && t.ues["supi:" + supi].pdus == s.ues[k].pdus
            && t.ues.Keys == s.ues.Keys - {k} + {"supi:" + supi}
            && forall l :: l in s.ues && l != k ==> t.ues[l] == s.ues[l]
  {
    PromoteMovesIff(s, k, supi);
  }

  /** Merging removes only the second key and touches only the first. */
  lemma MergeFrame(s: Store, first: string, second: string, dangling: UeState)
    requires first in s.ues && second in s.ues && first != second
    ensures var t := Merge(s, first, second, dangling);
            && t.ues.Keys == s.ues.Keys - {second}
            && t.ues[first] == MergeStates(s.ues[first], s.ues[second])
            && forall l :: l in t.ues && l != first ==> t.ues[l] == s.ues[l]
  {
  }

  // === Lookups ===

  /** `get_ue_state_by_supi`: follow the index to the stored state. */
  function LookupBySupi(s: Store, supi: string): Option<UeState> {
    if supi in s.index.supi && s.index.supi[supi] in s.ues then Some(s.ues[s.index.supi[supi]]) else None
  }

  lemma IndexedSupi(s: Store, supi: string, k: string)
    requires Coherent(s)
    ensures supi in s.index.supi && s.index.supi[supi] == k <==> k in s.ues && s.ues[k].supi == Some(supi)
  {
    var o := Owned(s.ues, BySupi);
    assert Exact(s.index.Of(BySupi), o);
    assert k in s.ues ==> (supi in o[k] <==> s.ues[k].supi == Some(supi));
  }

  /** In a sound store the lookup returns exactly the UE a scan for the SUPI finds, under its SUPI key. */
  lemma LookupIsScan(s: Store, supi: string, st: UeState)
    requires Sound(s)
    ensures LookupBySupi(s, supi) == Some(st) <==> exists k :: k in s.ues && s.ues[k] == st && st.supi == Some(supi)
    ensures LookupBySupi(s, supi) == Some(st) ==> s.index.supi[supi] == "supi:" + supi
  {
    if LookupBySupi(s, supi) == Some(st) {
      IndexedSupi(s, supi, s.index.supi[supi]);
    }
    if k :| k in s.ues && s.ues[k] == st && st.supi == Some(supi) {
      IndexedSupi(s, supi, k);
    }
  }

  lemma {:induction false} SoundAtEnd(s: Store, ops: seq<Op>)
    requires SoundRun(s, ops)
    ensures Sound(Run(s, ops))
    decreases ops
  {
    if ops != [] {
      SoundAtEnd(Step(s, ops[0]), ops[1..]);
    }
  }

  /** After any safe run from the empty store each index equals a scan of all stored states, and the
      lookup by SUPI finds what the scan finds. */
  lemma AfterAnySafeRun(ops: seq<Op>, a: Attr, supi: string, st: UeState)
    requires ReturningRun(EMPTY, ops) && SafeRun(EMPTY, ops)
    ensures var t := Run(EMPTY, ops);
            && t.index.Of(a) == Scan(Owned(t.ues, a)) && Unshared(Owned(t.ues, a))
            && (LookupBySupi(t, supi) == Some(st) <==>
                exists k :: k in t.ues && t.ues[k] == st && st.supi == Some(supi))
  {
    EmptySound();
    RunSoundIff(EMPTY, ops);
    SoundAtEnd(EMPTY, ops);
    CoherentIsScan(Run(EMPTY, ops));
    LookupIsScan(Run(EMPTY, ops), supi, st);
  }

  /** `get_ue_state_by_gpsi`, taken literally: when the index knows the GPSI, the store is asked for
      the raw "gpsi:" key instead of the key the index gave. (For a well-formed GPSI; for any other
      one the key constructor throws.) */
  function LookupByGpsi(s: Store, gpsi: string): Option<UeState> {
    var k := "gpsi:" + gpsi;
    if gpsi in s.index.gpsi && k in s.ues then Some(s.ues[k]) else None
  }

  /** So a UE is found by its GPSI exactly when it is stored under that GPSI key. */
  lemma GpsiLookupIff(s: Store, k: string, gpsi: string)
    requires Sound(s) && k in s.ues && s.ues[k].gpsi == Some(gpsi)
    ensures LookupByGpsi(s, gpsi) == Some(s.ues[k]) <==> k == "gpsi:" + gpsi
  {
    assert Exact(s.index.Of(ByGpsi), Owned(s.ues, ByGpsi));
    assert gpsi in Owned(s.ues, ByGpsi)[k];
  }

  /** In particular, promoting a UE that was stored under its GPSI hides it from GPSI lookups. */
  lemma PromotionHidesGpsi(s: Store, gpsi: string, supi: string)
    requires Sound(s) && "gpsi:" + gpsi in s.ues && s.ues["gpsi:" + gpsi].gpsi == Some(gpsi)
    requires PromotionOf(s, "gpsi:" + gpsi, supi) == Promoted && PromoteSafe(s, "gpsi:" + gpsi, supi)
    ensures LookupByGpsi(s, gpsi) == Some(s.ues["gpsi:" + gpsi])
    ensures var t := Promote(s, "gpsi:" + gpsi, supi);
            LookupByGpsi(t, gpsi) == None && t.index.gpsi[gpsi] == "supi:" + supi
  {
    GpsiLookupIff(s, "gpsi:" + gpsi, gpsi);
    PromotionResolves(s, "gpsi:" + gpsi, supi);
    var t := Promote(s, "gpsi:" + gpsi, supi);
    assert Exact(t.index.Of(ByGpsi), Owned(t.ues, ByGpsi));
    assert gpsi in Owned(t.ues, ByGpsi)["supi:" + supi];
  }
}
