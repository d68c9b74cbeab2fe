/** UE subscription states as values, and the names under which the store indexes them.
    The source copies a state into and out of its map, so a state is a value here. */
module UeStates {
  import opened Options
  import opened UeKeys

  datatype Resolution = Provisional | Partial | Resolved

  datatype PduSession = PduSession(
    id: string,
    status: string,
    ipv4: Option<string>,
    ipv6Prefixes: seq<string>,
    ipv6Addresses: seq<string>,
    qodSessions: set<string>)

  /** The lists of alternative identifiers a state keeps. */
  datatype IdentifierType = KnownIpv4 | KnownIpv6 | KnownGpsi | KnownIpv6Prefix | KnownMac | Unrecognised

  datatype UeState = UeState(
    key: UeKey,
    supi: Option<string>,
    gpsi: Option<string>,
    resolution: Resolution,
    knownIpv4: seq<string>,
    knownIpv6: seq<string>,
    knownGpsi: seq<string>,
    knownIpv6Prefixes: seq<string>,
    knownMacs: seq<string>,
    pdus: seq<PduSession>,
    createdAt: int)
  {
    function Known(t: IdentifierType): seq<string> {
      match t
      case KnownIpv4 => knownIpv4
      case KnownIpv6 => knownIpv6
      case KnownGpsi => knownGpsi
      case KnownIpv6Prefix => knownIpv6Prefixes
      case KnownMac => knownMacs
      case Unrecognised => []
    }

    function WithKnown(t: IdentifierType, values: seq<string>): UeState {
      match t
      case KnownIpv4 => this.(knownIpv4 := values)
      case KnownIpv6 => this.(knownIpv6 := values)
      case KnownGpsi => this.(knownGpsi := values)
      case KnownIpv6Prefix => this.(knownIpv6Prefixes := values)
      case KnownMac => this.(knownMacs := values)
      case Unrecognised => this
    }

    /** `resolve_supi`: only a state without a SUPI changes; its key becomes SUPI-based. */
    function ResolveSupi(newSupi: string): UeState {
      if supi.Some? then this
      else this.(supi := Some(newSupi), resolution := Resolved,
                 key := if key.CanPromoteToSupi() then key.PromotedToSupi() else Single(SupiBased, newSupi))
    }

    /** `add_known_identifier`: append unless present. */
    function AddKnown(t: IdentifierType, value: string): UeState {
      if value in Known(t) then this else WithKnown(t, Known(t) + [value])
    }

    /** `remove_known_identifier`: erase the first occurrence; the key is demoted when its own kind
        of identifier has run out. None when the value is not listed. */
    function RemoveKnown(t: IdentifierType, value: string): Option<UeState> {
      if value !in Known(t) then None
      else
        var left := EraseFirst(Known(t), value);
        var st := WithKnown(t, left);
        Some(if key.kind == OwnKind(t) && left == [] then st.(key := key.DemotedToComposite()) else st)
    }
  }

  /** The key kind that is demoted when the last identifier of a type goes. */
  function OwnKind(t: IdentifierType): KeyType {
    match t
    case KnownIpv4 => Ipv4Based
    case KnownIpv6 => Ipv6Based
    case KnownGpsi => GpsiBased
    case KnownIpv6Prefix => Ipv6PrefixBased
    case KnownMac => MacBased
    case Unrecognised => Composite
  }

  function EraseFirst(s: seq<string>, v: string): seq<string>
    requires v in s
  {
    if s[0] == v then s[1..] else [s[0]] + EraseFirst(s[1..], v)
  }

  /** A new state for a key that is not resolved yet. */
  function ProvisionalState(key: UeKey, now: int): UeState {
    UeState(key, None, None, Provisional, [], [], [], [], [], [], now)
  }

  predicate HasId(pdus: seq<PduSession>, id: string) {
    exists i :: 0 <= i < |pdus| && pdus[i].id == id
  }

  /** Position of the first session with the id, or the length when there is none. */
  function FindId(pdus: seq<PduSession>, id: string): (i: nat)
    ensures i <= |pdus|
    ensures i < |pdus| ==> pdus[i].id == id
    ensures forall j :: 0 <= j < i ==> pdus[j].id != id
  {
    if pdus == [] || pdus[0].id == id then 0
    else
      var rest := FindId(pdus[1..], id);
      assert forall j :: 1 <= j < 1 + rest ==> pdus[j] == pdus[1..][j - 1];
      1 + rest
  }

  /** `add_or_update_pdu_session`: overwrite the first session with that id, else append. */
  function PutPdu(pdus: seq<PduSession>, p: PduSession): seq<PduSession> {
    var i := FindId(pdus, p.id);
    if i < |pdus| then pdus[i := p] else pdus + [p]
  }

  function PutPdus(pdus: seq<PduSession>, more: seq<PduSession>): seq<PduSession> {
    if more == [] then pdus else PutPdu(PutPdus(pdus, more[..|more| - 1]), more[|more| - 1])
  }

  /** Append the sessions of the second list whose ids the first does not hold yet. */
  function MergePdus(pdus: seq<PduSession>, more: seq<PduSession>): seq<PduSession> {
    if more == [] then pdus
    else
      var merged := MergePdus(pdus, more[..|more| - 1]);
      var last := more[|more| - 1];
      if HasId(merged, last.id) then merged else merged + [last]
  }

  function AddAllKnown(st: UeState, t: IdentifierType, values: seq<string>): UeState {
    if values == [] then st
    else AddAllKnown(st, t, values[..|values| - 1]).AddKnown(t, values[|values| - 1])
  }

  /** The state that results from merging a second state into a first one. */
  function MergeStates(first: UeState, second: UeState): UeState {
    var st1 := AddAllKnown(first, KnownIpv4, second.knownIpv4);
    var st2 := AddAllKnown(st1, KnownIpv6, second.knownIpv6);
    var st3 := AddAllKnown(st2, KnownGpsi, second.knownGpsi);
    st3.(pdus := MergePdus(first.pdus, second.pdus))
  }

  // === Index names ===

  /** The secondary indices of the store. */
  datatype Attr = BySupi | ByGpsi | ByIpv4 | ByIpv6 | ByIpv6Prefix

  function Names(o: Option<string>): set<string> {
    if o.Some? then {o.value} else {}
  }

  function Elems(s: seq<string>): set<string> {
    set x | x in s
  }

  /** The names one PDU session contributes to an index. */
  function PduNames(a: Attr, p: PduSession): set<string> {
    match a
    case ByIpv4 => Names(p.ipv4)
    case ByIpv6 => Elems(p.ipv6Addresses)
    case ByIpv6Prefix => Elems(p.ipv6Prefixes)
    case BySupi => {}
    case ByGpsi => {}
  }

  function SessionNames(a: Attr, pdus: seq<PduSession>): set<string> {
    if pdus == [] then {}
    else SessionNames(a, pdus[..|pdus| - 1]) + PduNames(a, pdus[|pdus| - 1])
  }

  /** All names under which an index must hold a state. */
  function UeNames(a: Attr, st: UeState): set<string> {
    match a
    case BySupi => Names(st.supi)
    case ByGpsi => Names(st.gpsi)
    case _ => SessionNames(a, st.pdus)
  }

  /** The names without the session at position i. */
  function OtherNames(a: Attr, pdus: seq<PduSession>, i: nat): set<string>
    requires i < |pdus|
  {
    SessionNames(a, pdus[..i] + pdus[i + 1..])
  }

  lemma AppendNames(a: Attr, pdus: seq<PduSession>, p: PduSession)
    ensures SessionNames(a, pdus + [p]) == SessionNames(a, pdus) + PduNames(a, p)
  {
    assert (pdus + [p])[..|pdus|] == pdus;
  }

  lemma OthersAppend(a: Attr, front: seq<PduSession>, last: PduSession, i: nat)
    requires i < |front|
    ensures OtherNames(a, front + [last], i) == OtherNames(a, front, i) + PduNames(a, last)
  {
    var pdus, others := front + [last], front[..i] + front[i + 1..];
    assert pdus[..i] + pdus[i + 1..] == others + [last];
    AppendNames(a, others, last);
  }

  lemma {:induction false} SplitNames(a: Attr, pdus: seq<PduSession>, i: nat)
    requires i < |pdus|
    ensures SessionNames(a, pdus) == OtherNames(a, pdus, i) + PduNames(a, pdus[i])
    decreases |pdus|
  {
    var front, last := pdus[..|pdus| - 1], pdus[|pdus| - 1];
    AppendNames(a, front, last);
    assert pdus == front + [last];
    if i == |front| {
      assert pdus[..i] + pdus[i + 1..] == front;
    } else {
      SplitNames(a, front, i);
      OthersAppend(a, front, last, i);
    }
  }

  lemma ReplaceNames(a: Attr, pdus: seq<PduSession>, i: nat, p: PduSession)
    requires i < |pdus|
    ensures SessionNames(a, pdus[i := p]) == OtherNames(a, pdus, i) + PduNames(a, p)
  {
    var next := pdus[i := p];
    SplitNames(a, next, i);
    assert next[..i] + next[i + 1..] == pdus[..i] + pdus[i + 1..];
  }

  // === Which names remain when sessions are put over others ===

  lemma {:induction false} SessionNamesIn(a: Attr, pdus: seq<PduSession>, n: string)
    ensures n in SessionNames(a, pdus) <==> exists i :: 0 <= i < |pdus| && n in PduNames(a, pdus[i])
    decreases |pdus|
  {
    if pdus != [] {
      var front := pdus[..|pdus| - 1];
      SessionNamesIn(a, front, n);
      if i :| 0 <= i < |pdus| && n in PduNames(a, pdus[i]) {
        assert i < |front| ==> front[i] == pdus[i];
      }
    }
  }

  /** The stored session at i is overwritten: it is the first of its id, and the id comes again. */
  predicate Overwritten(pdus: seq<PduSession>, more: seq<PduSession>, i: nat)
    requires i < |pdus|
  {
    FindId(pdus, pdus[i].id) == i && HasId(more, pdus[i].id)
  }

  /** No later session of the list has the same id. */
  predicate Lasting(more: seq<PduSession>, j: nat)
    requires j < |more|
  {
    forall k :: j < k < |more| ==> more[k].id != more[j].id
  }

  ghost predicate KeptName(a: Attr, pdus: seq<PduSession>, more: seq<PduSession>, n: string) {
    exists i :: 0 <= i < |pdus| && !Overwritten(pdus, more, i) && n in PduNames(a, pdus[i])
  }

  ghost predicate PutName(a: Attr, more: seq<PduSession>, n: string) {
    exists j :: 0 <= j < |more| && Lasting(more, j) && n in PduNames(a, more[j])
  }

  lemma {:induction false} PutPdusFromHead(pdus: seq<PduSession>, more: seq<PduSession>)
    requires more != []
    ensures PutPdus(pdus, more) == PutPdus(PutPdu(pdus, more[0]), more[1..])
    decreases |more|
  {
    if |more| > 1 {
      var front := more[..|more| - 1];
      PutPdusFromHead(pdus, front);
      assert front[1..] == more[1..][..|more| - 2];
    } else {
      assert more[..0] == [] && more[1..] == [];
    }
  }

  lemma FindIdIs(pdus: seq<PduSession>, id: string, i: nat)
    requires i < |pdus| && pdus[i].id == id && forall j :: 0 <= j < i ==> pdus[j].id != id
    ensures FindId(pdus, id) == i
  {
    var f := FindId(pdus, id);
    assert !(f < i) && !(i < f);
  }

  lemma HasIdFromHead(more: seq<PduSession>, id: string)
    requires more != []
    ensures HasId(more, id) <==> more[0].id == id || HasId(more[1..], id)
  {
    if i :| 0 <= i < |more| && more[i].id == id {
      assert i > 0 ==> more[1..][i - 1].id == id;
    }
    if i :| 0 <= i < |more[1..]| && more[1..][i].id == id {
      assert more[i + 1].id == id;
    }
  }

  lemma LastingFromHead(more: seq<PduSession>)
    requires more != []
    ensures Lasting(more, 0) <==> !HasId(more[1..], more[0].id)
    ensures forall j :: 0 <= j < |more| - 1 ==> (Lasting(more[1..], j) <==> Lasting(more, j + 1))
  {
    if HasId(more[1..], more[0].id) {
      var i :| 0 <= i < |more[1..]| && more[1..][i].id == more[0].id;
      assert more[i + 1].id == more[0].id;
    } else {
      forall k | 0 < k < |more|
        ensures more[k].id != more[0].id
      {
        assert more[1..][k - 1] == more[k];
      }
    }
    forall j | 0 <= j < |more| - 1
      ensures Lasting(more[1..], j) <==> Lasting(more, j + 1)
    {
      assert forall k :: j + 1 < k < |more| ==> more[k] == more[1..][k - 1];
      assert forall k :: j < k < |more| - 1 ==> more[1..][k] == more[k + 1];
    }
  }

  /** Putting one session: its place, and what the other places hold. */
  lemma PutPlace(pdus: seq<PduSession>, p: PduSession)
    ensures var q, f := PutPdu(pdus, p), FindId(pdus, p.id);
            && f < |q| && q[f] == p && |q| == (if f < |pdus| then |pdus| else |pdus| + 1)
            && FindId(q, p.id) == f
            && forall i :: 0 <= i < |pdus| && i != f ==> q[i] == pdus[i]
  {
    FindIdIs(PutPdu(pdus, p), p.id, FindId(pdus, p.id));
  }

  /** A place other than the one p is put at is first of its id before exactly when it is after. */
  lemma PutKeepsFirst(pdus: seq<PduSession>, p: PduSession, i: nat)
    requires i < |pdus| && i != FindId(pdus, p.id)
    ensures FindId(PutPdu(pdus, p), pdus[i].id) == i <==> FindId(pdus, pdus[i].id) == i
  {
    var q, id := PutPdu(pdus, p), pdus[i].id;
    PutPlace(pdus, p);
    if id != p.id {
      var f := FindId(pdus, id);
      FindIdIs(q, id, f);
    }
  }

  /** What is overwritten, before and after the first session has been put. */
  lemma OverwrittenFromHead(pdus: seq<PduSession>, more: seq<PduSession>)
    requires more != []
    ensures var q, f := PutPdu(pdus, more[0]), FindId(pdus, more[0].id);
            && f < |q| && (Overwritten(q, more[1..], f) <==> !Lasting(more, 0))
            && (f < |pdus| ==> Overwritten(pdus, more, f))
            && forall i: nat :: i < |pdus| && i != f ==> (Overwritten(q, more[1..], i) <==> Overwritten(pdus, more, i))
  {
    var p := more[0];
    PutPlace(pdus, p);
    LastingFromHead(more);
    HasIdFromHead(more, p.id);
    forall i: nat | i < |pdus| && i != FindId(pdus, p.id)
      ensures Overwritten(PutPdu(pdus, p), more[1..], i) <==> Overwritten(pdus, more, i)
    {
      PutKeepsFirst(pdus, p, i);
      HasIdFromHead(more, pdus[i].id);
    }
  }

  lemma KeptFromHead(a: Attr, pdus: seq<PduSession>, more: seq<PduSession>, n: string)
    requires more != []
    ensures KeptName(a, PutPdu(pdus, more[0]), more[1..], n) <==>
            KeptName(a, pdus, more, n) || (Lasting(more, 0) && n in PduNames(a, more[0]))
  {
    var rest := more[1..];
    var q, f := PutPdu(pdus, more[0]), FindId(pdus, more[0].id);
    PutPlace(pdus, more[0]);
    OverwrittenFromHead(pdus, more);
    if i :| 0 <= i < |q| && !Overwritten(q, rest, i) && n in PduNames(a, q[i]) && i != f {
      assert !Overwritten(pdus, more, i) && n in PduNames(a, pdus[i]);
    }
    if i :| 0 <= i < |pdus| && !Overwritten(pdus, more, i) && n in PduNames(a, pdus[i]) {
      assert !Overwritten(q, rest, i) && n in PduNames(a, q[i]);
    }
  }

  lemma PutFromHead(a: Attr, more: seq<PduSession>, n: string)
    requires more != []
    ensures PutName(a, more, n) <==> (Lasting(more, 0) && n in PduNames(a, more[0])) || PutName(a, more[1..], n)
  {
    LastingFromHead(more);
    if j :| 0 <= j < |more| && Lasting(more, j) && n in PduNames(a, more[j]) && j > 0 {
      assert Lasting(more[1..], j - 1) && n in PduNames(a, more[1..][j - 1]);
    }
    if j :| 0 <= j < |more[1..]| && Lasting(more[1..], j) && n in PduNames(a, more[1..][j]) {
      assert Lasting(more, j + 1) && n in PduNames(a, more[j + 1]);
    }
  }

  /** After sessions are put over a list, its names are those of the stored sessions that are kept and
      those of the last session put under each id. */
  lemma {:induction false} PutPdusNames(a: Attr, pdus: seq<PduSession>, more: seq<PduSession>, n: string)
    ensures n in SessionNames(a, PutPdus(pdus, more)) <==> KeptName(a, pdus, more, n) || PutName(a, more, n)
    decreases |more|
  {
    if more == [] {
      SessionNamesIn(a, pdus, n);
      assert forall i :: 0 <= i < |pdus| ==> !Overwritten(pdus, more, i);
    } else {
      PutPdusFromHead(pdus, more);
      PutPdusNames(a, PutPdu(pdus, more[0]), more[1..], n);
      KeptFromHead(a, pdus, more, n);
      PutFromHead(a, more, n);
    }
  }

  /** The names stay the same exactly when no session put last under its id brings an address the list
      does not have, and no address of an overwritten session gets lost. */
  lemma SameNamesIff(a: Attr, pdus: seq<PduSession>, more: seq<PduSession>)
    ensures SessionNames(a, PutPdus(pdus, more)) == SessionNames(a, pdus) <==> NoneNew(a, pdus, more) && NoneLost(a, pdus, more)
  {
    forall n
      ensures n in SessionNames(a, PutPdus(pdus, more)) <==> KeptName(a, pdus, more, n) || PutName(a, more, n)
      ensures KeptName(a, pdus, more, n) ==> n in SessionNames(a, pdus)
    {
      PutPdusNames(a, pdus, more, n);
      SessionNamesIn(a, pdus, n);
    }
    if NoneNew(a, pdus, more) && NoneLost(a, pdus, more) {
      forall n
        ensures n in SessionNames(a, pdus) ==> KeptName(a, pdus, more, n) || PutName(a, more, n)
      {
        SessionNamesIn(a, pdus, n);
      }
    } else if SessionNames(a, PutPdus(pdus, more)) == SessionNames(a, pdus) {
      forall i, n | 0 <= i < |pdus| && Overwritten(pdus, more, i) && n in PduNames(a, pdus[i])
        ensures KeptName(a, pdus, more, n) || PutName(a, more, n)
      {
        SessionNamesIn(a, pdus, n);
        assert n in SessionNames(a, pdus);
      }
      assert NoneNew(a, pdus, more);
      assert false;
    }
  }

  ghost predicate NoneNew(a: Attr, pdus: seq<PduSession>, more: seq<PduSession>) {
    forall j, n :: 0 <= j < |more| && Lasting(more, j) && n in PduNames(a, more[j]) ==> n in SessionNames(a, pdus)
  }

  ghost predicate NoneLost(a: Attr, pdus: seq<PduSession>, more: seq<PduSession>) {
    forall i, n :: 0 <= i < |pdus| && Overwritten(pdus, more, i) && n in PduNames(a, pdus[i]) ==>
      KeptName(a, pdus, more, n) || PutName(a, more, n)
  }

  // === What merging keeps ===

  lemma {:induction false} MergePdusFacts(pdus: seq<PduSession>, more: seq<PduSession>)
    ensures pdus <= MergePdus(pdus, more)
    ensures forall id :: HasId(MergePdus(pdus, more), id) <==> HasId(pdus, id) || HasId(more, id)
    ensures forall i, j :: |pdus| <= i < |MergePdus(pdus, more)| && 0 <= j < i ==>
              MergePdus(pdus, more)[i].id != MergePdus(pdus, more)[j].id
    ensures forall i :: |pdus| <= i < |MergePdus(pdus, more)| ==> MergePdus(pdus, more)[i] in more
  {
    if more != [] {
      var front, last := more[..|more| - 1], more[|more| - 1];
      MergePdusFacts(pdus, front);
      var m := MergePdus(pdus, front);
      var r := MergePdus(pdus, more);
      forall id
        ensures HasId(r, id) <==> HasId(pdus, id) || HasId(more, id)
      {
        assert HasId(more, id) <==> HasId(front, id) || last.id == id by {
          if i :| 0 <= i < |more| && more[i].id == id {
            assert i < |front| ==> front[i].id == id;
          }
          if i :| 0 <= i < |front| && front[i].id == id {
            assert more[i].id == id;
          }
        }
        if !HasId(m, last.id) {
          assert r[|m|] == last;
          if i :| 0 <= i < |m| && m[i].id == id {
            assert r[i].id == id;
          }
          if i :| 0 <= i < |r| && r[i].id == id {
            assert i < |m| ==> m[i].id == id;
          }
        }
      }
    }
  }

  lemma {:induction false} MergedNames(a: Attr, pdus: seq<PduSession>, more: seq<PduSession>)
    ensures SessionNames(a, MergePdus(pdus, more)) <= SessionNames(a, pdus) + SessionNames(a, more)
  {
    if more != [] {
      var front, last := more[..|more| - 1], more[|more| - 1];
      MergedNames(a, pdus, front);
      AppendNames(a, MergePdus(pdus, front), last);
    }
  }

  predicate Distinct(s: seq<string>) {
    forall i, j :: 0 <= i < j < |s| ==> s[i] != s[j]
  }

  lemma ElemsAppend(s: seq<string>, v: string)
    ensures Elems(s + [v]) == Elems(s) + {v}
  {
    assert (s + [v])[|s|] == v;
  }

  function AddEach(s: seq<string>, values: seq<string>): seq<string> {
    if values == [] then s
    else
      var r, v := AddEach(s, values[..|values| - 1]), values[|values| - 1];
      if v in r then r else r + [v]
  }

  lemma {:induction false} AddEachFacts(s: seq<string>, values: seq<string>)
    ensures Elems(AddEach(s, values)) == Elems(s) + Elems(values)
    ensures s <= AddEach(s, values)
    ensures Distinct(s) ==> Distinct(AddEach(s, values))
    decreases |values|
  {
    if values != [] {
      var front, v := values[..|values| - 1], values[|values| - 1];
      AddEachFacts(s, front);
      ElemsAppend(AddEach(s, front), v);
      assert values == front + [v];
      ElemsAppend(front, v);
    }
  }

  /** Only the one list changes. */
  lemma {:induction false} AddAllIsAddEach(st: UeState, t: IdentifierType, values: seq<string>)
    requires t != Unrecognised
    ensures AddAllKnown(st, t, values) == st.WithKnown(t, AddEach(st.Known(t), values))
    ensures AddAllKnown(st, t, values).Known(t) == AddEach(st.Known(t), values)
    decreases |values|
  {
    if values != [] {
      AddAllIsAddEach(st, t, values[..|values| - 1]);
    }
  }

  /** Adding identifiers: the union as a set, a list without repeats stays one, nothing else changes. */
  lemma AddAllKnownFacts(st: UeState, t: IdentifierType, values: seq<string>)
    requires t != Unrecognised
    ensures Elems(AddAllKnown(st, t, values).Known(t)) == Elems(st.Known(t)) + Elems(values)
    ensures st.Known(t) <= AddAllKnown(st, t, values).Known(t)
    ensures Distinct(st.Known(t)) ==> Distinct(AddAllKnown(st, t, values).Known(t))
    ensures AddAllKnown(st, t, values) == st.WithKnown(t, AddAllKnown(st, t, values).Known(t))
  {
    AddAllIsAddEach(st, t, values);
    AddEachFacts(st.Known(t), values);
  }

  /** The merged state: the first state's identity; the union of session ids with the first state's
      records in front and winning every clash; the union of known IPv4, IPv6 and GPSI values. */
  lemma MergeKeepsUnion(first: UeState, second: UeState)
    ensures var m := MergeStates(first, second);
            && m == first.(knownIpv4 := m.knownIpv4, knownIpv6 := m.knownIpv6, knownGpsi := m.knownGpsi, pdus := m.pdus)
            && Elems(m.knownIpv4) == Elems(first.knownIpv4) + Elems(second.knownIpv4)
            && Elems(m.knownIpv6) == Elems(first.knownIpv6) + Elems(second.knownIpv6)
            && Elems(m.knownGpsi) == Elems(first.knownGpsi) + Elems(second.knownGpsi)
            && (Distinct(first.knownIpv4) ==> Distinct(m.knownIpv4))
            && (Distinct(first.knownIpv6) ==> Distinct(m.knownIpv6))
            && (Distinct(first.knownGpsi) ==> Distinct(m.knownGpsi))
            && first.pdus <= m.pdus
            && (forall id :: HasId(m.pdus, id) <==> HasId(first.pdus, id) || HasId(second.pdus, id))
            && (forall i :: |first.pdus| <= i < |m.pdus| ==> m.pdus[i] in second.pdus)
            && (forall i, j :: |first.pdus| <= i < |m.pdus| && 0 <= j < i ==> m.pdus[i].id != m.pdus[j].id)
  {
    AddAllKnownFacts(first, KnownIpv4, second.knownIpv4);
    var st1 := AddAllKnown(first, KnownIpv4, second.knownIpv4);
    AddAllKnownFacts(st1, KnownIpv6, second.knownIpv6);
    var st2 := AddAllKnown(st1, KnownIpv6, second.knownIpv6);
    AddAllKnownFacts(st2, KnownGpsi, second.knownGpsi);
    MergePdusFacts(first.pdus, second.pdus);
  }
}
