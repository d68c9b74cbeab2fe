/** What each call of the UE store leaves in the stored states, told field by field; the indices are the
    subject of UeCoherence. */
module UeContents {
  import opened Options
  import opened UeKeys
  import opened UeStates
  import opened UeStores
  import opened UeCoherence

  /** Every state but the one under k is as before. */
  ghost predicate OthersSame(s: Store, t: Store, k: string) {
    forall l :: l != k ==> (l in t.ues <==> l in s.ues) && (l in s.ues ==> t.ues[l] == s.ues[l])
  }

  // === Removing an identifier ===

  predicate WithoutAt(before: seq<string>, after: seq<string>, value: string, i: nat) {
    i < |before| && before[i] == value && value !in before[..i] && after == before[..i] + before[i + 1..]
  }

  /** One list is the other without the first occurrence of the value; the order stays. */
  ghost predicate Without(before: seq<string>, after: seq<string>, value: string) {
    exists i: nat :: WithoutAt(before, after, value, i)
  }

  lemma WithoutHead(s: seq<string>)
    requires s != []
    ensures WithoutAt(s, s[1..], s[0], 0)
  {
    assert s[..0] + s[1..] == s[1..];
  }

  lemma {:induction false} EraseFirstIs(s: seq<string>, v: string)
    requires v in s
    ensures Without(s, EraseFirst(s, v), v)
    decreases s
  {
    if s[0] == v {
      WithoutHead(s);
    } else {
      var rest := s[1..];
      EraseFirstIs(rest, v);
      var left := EraseFirst(rest, v);
      var j: nat :| WithoutAt(rest, left, v, j);
      WithoutShift(s[0], rest, left, v, j);
      assert s == [s[0]] + rest;
      assert WithoutAt(s, EraseFirst(s, v), v, j + 1);
    }
  }

  lemma WithoutShift(x: string, before: seq<string>, after: seq<string>, v: string, i: nat)
    requires WithoutAt(before, after, v, i) && x != v
    ensures WithoutAt([x] + before, [x] + after, v, i + 1)
  {
    assert ([x] + before)[..i + 1] == [x] + before[..i];
    assert ([x] + before)[i + 2..] == before[i + 1..];
  }

  lemma WithoutCounts(before: seq<string>, after: seq<string>, value: string)
    requires Without(before, after, value)
    ensures multiset(after) == multiset(before) - multiset{value}
    ensures after == [] <==> before == [value]
  {
    var i: nat :| WithoutAt(before, after, value, i);
    var a, b := before[..i], before[i + 1..];
    assert before == a + ([value] + b);
    assert multiset(before) == multiset(a) + (multiset{value} + multiset(b));
    assert multiset(after) == multiset(a) + multiset(b);
    if after == [] {
      assert a == [] && b == [];
    }
  }

  /** The list of one type has lost the value; those of all other types are as before. */
  ghost predicate ListsWithout(st: UeState, next: UeState, t: IdentifierType, value: string) {
    && (if t == KnownIpv4 then Without(st.knownIpv4, next.knownIpv4, value) else next.knownIpv4 == st.knownIpv4)
    && (if t == KnownIpv6 then Without(st.knownIpv6, next.knownIpv6, value) else next.knownIpv6 == st.knownIpv6)
    && (if t == KnownGpsi then Without(st.knownGpsi, next.knownGpsi, value) else next.knownGpsi == st.knownGpsi)
    && (if t == KnownIpv6Prefix then Without(st.knownIpv6Prefixes, next.knownIpv6Prefixes, value)
        else next.knownIpv6Prefixes == st.knownIpv6Prefixes)
    && (if t == KnownMac then Without(st.knownMacs, next.knownMacs, value) else next.knownMacs == st.knownMacs)
  }

  /** The value is the only one listed for the kind of identifier the key is made of. */
  predicate LastOfItsKind(st: UeState, t: IdentifierType, value: string) {
    || (t == KnownIpv4 && st.key.kind == Ipv4Based && st.knownIpv4 == [value])
    || (t == KnownIpv6 && st.key.kind == Ipv6Based && st.knownIpv6 == [value])
    || (t == KnownGpsi && st.key.kind == GpsiBased && st.knownGpsi == [value])
    || (t == KnownIpv6Prefix && st.key.kind == Ipv6PrefixBased && st.knownIpv6Prefixes == [value])
    || (t == KnownMac && st.key.kind == MacBased && st.knownMacs == [value])
  }

  lemma RemoveKnownExact(st: UeState, t: IdentifierType, value: string)
    requires value in st.Known(t)
    ensures st.RemoveKnown(t, value).Some?
    ensures var next := st.RemoveKnown(t, value).value;
            && ListsWithout(st, next, t, value)
            && next.key == (if LastOfItsKind(st, t, value) then st.key.(kind := Composite) else st.key)
            && next.supi == st.supi && next.gpsi == st.gpsi && next.pdus == st.pdus
            && next.resolution == st.resolution && next.createdAt == st.createdAt
  {
    EraseFirstIs(st.Known(t), value);
    WithoutCounts(st.Known(t), EraseFirst(st.Known(t), value), value);
  }

  /** The value is on the state's list of that type. */
  predicate Lists(st: UeState, t: IdentifierType, value: string) {
    || (t == KnownIpv4 && value in st.knownIpv4) || (t == KnownIpv6 && value in st.knownIpv6)
    || (t == KnownGpsi && value in st.knownGpsi) || (t == KnownIpv6Prefix && value in st.knownIpv6Prefixes)
    || (t == KnownMac && value in st.knownMacs)
  }

  /** Removing an identifier takes its first occurrence off its own list and touches nothing else; the
      key is demoted exactly when that was the last identifier of the key's own kind. */
  lemma DropIdentifierContents(s: Store, k: string, t: IdentifierType, value: string)
    ensures var u := DropIdentifier(s, k, t, value);
            && OthersSame(s, u, k)
            && (k in u.ues <==> k in s.ues)
            && (k in s.ues && !Lists(s.ues[k], t, value) ==> u.ues[k] == s.ues[k])
            && (k in s.ues && Lists(s.ues[k], t, value) ==>
                  var st, next := s.ues[k], u.ues[k];
                  && ListsWithout(st, next, t, value)
                  && next.key == (if LastOfItsKind(st, t, value) then st.key.(kind := Composite) else st.key)
                  && next.supi == st.supi && next.gpsi == st.gpsi && next.pdus == st.pdus
                  && next.resolution == st.resolution && next.createdAt == st.createdAt)
  {
    if k in s.ues && value in s.ues[k].Known(t) {
      RemoveKnownExact(s.ues[k], t, value);
    }
  }

  // === Updates, provisioning and promotion ===

  /** A full-state update stores the state as it is given, and nothing else changes. */
  lemma UpdateContents(s: Store, st: UeState)
    ensures var u, k := Update(s, st), st.key.PrimaryKey(); k in u.ues && u.ues[k] == st && OthersSame(s, u, k)
  {
  }

  /** A new state without data is provisional, created now, and knows nothing but its key. */
  lemma ProvisionContents(s: Store, key: UeKey, data: Option<UeState>, now: int)
    ensures var u, k := Provision(s, key, data, now), key.PrimaryKey();
            && k in u.ues && OthersSame(s, u, k)
            && (k !in s.ues && data.Some? ==> u.ues[k] == data.value)
            && (k !in s.ues && data.None? ==>
                  u.ues[k].key == key && u.ues[k].supi == None && u.ues[k].gpsi == None
                  && u.ues[k].resolution == Provisional && u.ues[k].createdAt == now && u.ues[k].pdus == []
                  && u.ues[k].knownIpv4 == [] && u.ues[k].knownIpv6 == [] && u.ues[k].knownGpsi == []
                  && u.ues[k].knownIpv6Prefixes == [] && u.ues[k].knownMacs == [])
            && (k in s.ues && data.None? ==> u.ues[k] == s.ues[k])
            && (k in s.ues && data.Some? ==>
                  var before, next := s.ues[k], u.ues[k];
                  && next == before.(gpsi := next.gpsi, pdus := next.pdus)
                  && next.gpsi == (if data.value.gpsi.Some? then data.value.gpsi else before.gpsi)
                  && LaidOver(before.pdus, data.value.pdus, next.pdus))
  {
    if key.PrimaryKey() in s.ues && data.Some? {
      PutPdusIsLaidOver(s.ues[key.PrimaryKey()].pdus, data.value.pdus);
    }
  }

  /** The session is the last one put under its id. */
  predicate PutLast(more: seq<PduSession>, x: PduSession) {
    exists j :: 0 <= j < |more| && Lasting(more, j) && more[j] == x
  }

  /** Stored sessions keep their places; the first of an id that comes again is replaced by the last
      one put under it, and what is new is appended. */
  predicate LaidOver(pdus: seq<PduSession>, more: seq<PduSession>, r: seq<PduSession>) {
    && |r| >= |pdus|
    && (forall i :: 0 <= i < |pdus| ==>
          if Overwritten(pdus, more, i) then PutLast(more, r[i]) && r[i].id == pdus[i].id else r[i] == pdus[i])
    && (forall i :: |pdus| <= i < |r| ==> PutLast(more, r[i]) && !HasId(pdus, r[i].id))
    && (forall j :: 0 <= j < |more| && Lasting(more, j) ==> more[j] in r)
  }

  lemma PutLastFromHead(more: seq<PduSession>, x: PduSession)
    requires more != []
    ensures PutLast(more, x) <==> (Lasting(more, 0) && more[0] == x) || PutLast(more[1..], x)
  {
    LastingFromHead(more);
    if j :| 0 <= j < |more| && Lasting(more, j) && more[j] == x && j > 0 {
      assert Lasting(more[1..], j - 1) && more[1..][j - 1] == x;
    }
    if j :| 0 <= j < |more[1..]| && Lasting(more[1..], j) && more[1..][j] == x {
      assert Lasting(more, j + 1) && more[j + 1] == x;
    }
  }

  lemma HasIdAfterPut(pdus: seq<PduSession>, p: PduSession, id: string)
    ensures HasId(PutPdu(pdus, p), id) <==> HasId(pdus, id) || p.id == id
  {
    var q, f := PutPdu(pdus, p), FindId(pdus, p.id);
    PutPlace(pdus, p);
    if i :| 0 <= i < |pdus| && pdus[i].id == id {
      assert q[i].id == id;
    }
    if i :| 0 <= i < |q| && q[i].id == id && i != f {
      assert pdus[i].id == id;
    }
    assert q[f].id == p.id;
  }

  lemma {:induction false} PutPdusIsLaidOver(pdus: seq<PduSession>, more: seq<PduSession>)
    ensures LaidOver(pdus, more, PutPdus(pdus, more))
    decreases |more|
  {
    if more != [] {
      var q, rest, r := PutPdu(pdus, more[0]), more[1..], PutPdus(pdus, more);
      PutPdusFromHead(pdus, more);
      PutPdusIsLaidOver(q, rest);
      PutPlace(pdus, more[0]);
      OverwrittenFromHead(pdus, more);
      LastingFromHead(more);
      StoredPlaces(pdus, more, q, r);
      NewPlaces(pdus, more, q, r);
      forall j | 0 <= j < |more| && Lasting(more, j)
        ensures more[j] in r
      {
        if j > 0 {
          assert Lasting(rest, j - 1) && rest[j - 1] == more[j];
        } else {
          assert r[FindId(pdus, more[0].id)] == more[0];
        }
      }
    }
  }

  lemma StoredPlaces(pdus: seq<PduSession>, more: seq<PduSession>, q: seq<PduSession>, r: seq<PduSession>)
    requires more != [] && q == PutPdu(pdus, more[0]) && LaidOver(q, more[1..], r)
    ensures |r| >= |q| >= |pdus|
    ensures forall i :: 0 <= i < |pdus| ==>
              if Overwritten(pdus, more, i) then PutLast(more, r[i]) && r[i].id == pdus[i].id else r[i] == pdus[i]
    ensures Lasting(more, 0) ==> FindId(pdus, more[0].id) < |r| && r[FindId(pdus, more[0].id)] == more[0]
  {
    var f := FindId(pdus, more[0].id);
    PutPlace(pdus, more[0]);
    OverwrittenFromHead(pdus, more);
    forall i: nat | i < |pdus|
      ensures if Overwritten(pdus, more, i) then PutLast(more, r[i]) && r[i].id == pdus[i].id else r[i] == pdus[i]
    {
      PutLastFromHead(more, r[i]);
      if i == f {
        assert Overwritten(q, more[1..], f) || r[f] == q[f];
      } else {
        assert Overwritten(q, more[1..], i) <==> Overwritten(pdus, more, i);
      }
    }
    assert Overwritten(q, more[1..], f) || r[f] == q[f];
  }

  lemma NewPlaces(pdus: seq<PduSession>, more: seq<PduSession>, q: seq<PduSession>, r: seq<PduSession>)
    requires more != [] && q == PutPdu(pdus, more[0]) && LaidOver(q, more[1..], r)
    ensures forall i :: |pdus| <= i < |r| ==> PutLast(more, r[i]) && !HasId(pdus, r[i].id)
  {
    var f := FindId(pdus, more[0].id);
    PutPlace(pdus, more[0]);
    OverwrittenFromHead(pdus, more);
    forall i: nat | |pdus| <= i < |r|
      ensures PutLast(more, r[i]) && !HasId(pdus, r[i].id)
    {
      PutLastFromHead(more, r[i]);
      if i < |q| {
        assert i == f && (Overwritten(q, more[1..], f) || r[f] == q[f]);
      } else {
        HasIdAfterPut(pdus, more[0], r[i].id);
      }
    }
  }

  /** Promotion to an unused SUPI key sets the SUPI, the resolution and the key; everything else the UE
      had goes with it. */
  lemma PromoteContents(s: Store, k: string, supi: string)
    requires k in s.ues && ValidSupi(supi) && k != "supi:" + supi && "supi:" + supi !in s.ues
    requires s.ues[k].supi.None? && !s.ues[k].key.CanPromoteToSupi()
    ensures var u, key := Promote(s, k, supi), "supi:" + supi;
            && u.ues.Keys == s.ues.Keys - {k} + {key}
            && u.ues[key] == s.ues[k].(supi := Some(supi), resolution := Resolved, key := Single(SupiBased, supi))
            && forall l :: l in s.ues && l != k ==> l in u.ues && u.ues[l] == s.ues[l]
  {
  }

  /** Any other promotion leaves the store as it is, same-key promotion of an unresolved UE apart. A
      SUPI that is not well formed never changes anything. */
  lemma PromoteRefused(s: Store, k: string, supi: string)
    ensures k !in s.ues || !ValidSupi(supi) || (k != "supi:" + supi && "supi:" + supi in s.ues) ==>
              Promote(s, k, supi) == s
    ensures k in s.ues && k == "supi:" + supi && s.ues[k].supi.Some? ==> Promote(s, k, supi) == s
  {
    if k in s.ues && s.ues[k].supi.Some? {
      assert s.ues[k := s.ues[k]] == s.ues;
    }
  }

  // === Sessions, GPSI, removal ===

  lemma SetGpsiContents(s: Store, k: string, gpsi: string)
    ensures var u := SetGpsi(s, k, gpsi);
            && OthersSame(s, u, k) && (k in u.ues <==> k in s.ues)
            && (k in s.ues ==> u.ues[k] == s.ues[k].(gpsi := Some(gpsi)))
  {
  }

  /** Putting a session replaces the first of its id in its place, or appends it; dropping one takes the
      first of its id out. The other sessions and fields stay as they are. */
  lemma SessionContents(s: Store, k: string, p: PduSession, id: string)
    requires k in s.ues
    ensures var before, u := s.ues[k].pdus, PutSession(s, k, p);
            && OthersSame(s, u, k) && k in u.ues && u.ues[k] == s.ues[k].(pdus := u.ues[k].pdus)
            && LaidOver(before, [p], u.ues[k].pdus)
    ensures var before, u := s.ues[k].pdus, DropSession(s, k, id);
            && OthersSame(s, u, k) && k in u.ues && u.ues[k] == s.ues[k].(pdus := u.ues[k].pdus)
            && (!HasId(before, id) ==> u.ues[k].pdus == before)
            && (HasId(before, id) ==> exists i :: 0 <= i < |before| && before[i].id == id && !HasId(before[..i], id)
                                       && u.ues[k].pdus == before[..i] + before[i + 1..])
  {
    var pdus := s.ues[k].pdus;
    assert PutPdus(pdus, [p]) == PutPdu(pdus, p) by {
      assert [p][..0] == [];
      assert PutPdus(pdus, []) == pdus;
    }
    PutPdusIsLaidOver(pdus, [p]);
    FirstOfId(pdus, id);
  }

  lemma FirstOfId(pdus: seq<PduSession>, id: string)
    ensures FindId(pdus, id) < |pdus| <==> HasId(pdus, id)
    ensures !HasId(pdus[..FindId(pdus, id)], id)
  {
    if i :| 0 <= i < |pdus| && pdus[i].id == id {
      assert !(FindId(pdus, id) > i);
    }
  }

  lemma RemoveContents(s: Store, k: string)
    ensures OthersSame(s, Remove(s, k), k) && k !in Remove(s, k).ues
  {
  }

  /** The cleanup keeps a state, as it is, exactly when it is not provisional or not older than the
      limit. */
  lemma CleanupContents(s: Store, now: int, maxAge: int, k: string)
    ensures var u := Cleanup(s, now, maxAge);
            && (k in u.ues <==> k in s.ues && (s.ues[k].resolution != Provisional || now - s.ues[k].createdAt <= maxAge))
            && (k in u.ues ==> u.ues[k] == s.ues[k])
  {
  }

  /** A UE provisioned without data survives a cleanup exactly while it is not older than the limit. */
  lemma ProvisionedLives(s: Store, key: UeKey, born: int, now: int, maxAge: int)
    requires key.PrimaryKey() !in s.ues
    ensures key.PrimaryKey() in Cleanup(Provision(s, key, None, born), now, maxAge).ues <==> now - born <= maxAge
  {
    ProvisionContents(s, key, None, born);
    CleanupContents(Provision(s, key, None, born), now, maxAge, key.PrimaryKey());
  }
}
