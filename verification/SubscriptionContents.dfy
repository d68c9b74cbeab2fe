/** What a created subscription means for later events, cleanups and deletions, and what JSON text a
    filter admits. */
module SubscriptionContents {
  import opened Options
  import opened Decimal
  import opened Subscriptions

  function Given(o: Option<string>, default: string): string {
    match o case Some(v) => v case None => default
  }

  /** The event type is there and not empty, and so is one of the two ways to notify. */
  predicate Complete(r: Request) {
    && r.eventType.Some? && r.eventType.value != ""
    && ((r.url.Some? && r.url.value != "") || (r.callback.Some? && r.callback.value != ""))
  }

  /** The last instant at which a subscription created now is live: after the seconds the request names,
      or after an hour. */
  function LastInstant(r: Request, now: int): int {
    match r.expirySeconds case Some(n) => now + n case None => now + 3600
  }

  /** A creation stores a subscription exactly when the request is complete, under the new id and with
      what the request says, and touches no other one. */
  lemma CreateContents(s: Store, r: Request, id: string, now: int)
    ensures var (t, reply) := Step(s, Timed(now, Create(r, id)));
            if Complete(r) then
              && reply.Created? && id in t && t == s[id := t[id]] && reply.sub == t[id]
              && t[id].id == id && t[id].active && t[id].eventType == r.eventType.value
              && t[id].clientId == (if r.clientId.Some? then r.clientId.value else if r.source.Some? then r.source.value else "unknown")
              && t[id].url == Given(r.url, "") && t[id].callback == Given(r.callback, "")
              && t[id].filters.Keys == r.filters.Keys && t[id].expiry == LastInstant(r, now)
            else t == s && reply == BadRequest
  {
    assert Build(r, id, now).filters.Keys == r.filters.Keys;
  }

  /** A later event selects the new subscription exactly when it is of the requested type, comes no later
      than the last instant, and has every filter key with the stored text as its dump. */
  lemma CreatedIsSelectedIff(s: Store, r: Request, id: string, now: int, eventType: string, data: Event, later: int)
    requires Complete(r)
    ensures var t := Step(s, Timed(now, Create(r, id))).0;
            var reply := Step(t, Timed(later, Notify(eventType, data))).1;
            reply.Notified? && (id in reply.subs <==>
              && r.eventType == Some(eventType) && later <= LastInstant(r, now)
              && forall k <- r.filters :: k in data && Dump(data[k]) == Stored(r.filters[k]))
  {
    var sub := Build(r, id, now);
    assert forall k <- r.filters :: sub.filters[k] == Stored(r.filters[k]);
    assert sub.filters.Keys == r.filters.Keys;
  }

  /** A cleanup keeps it exactly until the last instant. */
  lemma CreatedIsKeptIff(s: Store, r: Request, id: string, now: int, later: int)
    requires Complete(r)
    ensures var t := Step(s, Timed(now, Create(r, id))).0;
            id in Step(t, Timed(later, Cleanup)).0 <==> later <= LastInstant(r, now)
  {
  }

  /** A deletion that names a stored subscription succeeds exactly for its own client or when no client is
      named; it removes that one only. */
  lemma DeleteContents(s: Store, id: Option<string>, client: string, now: int)
    ensures var (t, reply) := Step(s, Timed(now, Delete(id, client)));
            && (reply == BadRequest <==> id.None?)
            && (id.Some? && id.value !in s ==> reply == NotFound)
            && (id.Some? && id.value in s ==>
                  reply == if client == "" || client == s[id.value].clientId then Deleted else Unauthorized)
            && t == if reply == Deleted then s - {id.value} else s
  {
  }

  // === JSON text ===

  function HexValue(c: char): nat {
    if '0' <= c <= '9' then (c - '0') as nat else if 'a' <= c <= 'f' then (c - 'a') as nat + 10 else 0
  }

  /** Reading the inside of a JSON string back. */
  function Unescape(t: string): string
    decreases |t|
  {
    if t == "" then ""
    else if t[0] != '\\' || |t| == 1 then [t[0]] + Unescape(t[1..])
    else if t[1] == 'u' && |t| >= 6 then
      [(HexValue(t[4]) * 16 + HexValue(t[5])) as char] + Unescape(t[6..])
    else
      [match t[1]
       case 'n' => '\n'
       case 'r' => '\r'
       case 't' => '\t'
       case 'b' => 8 as char
       case 'f' => 12 as char
       case c => c] + Unescape(t[2..])
  }

  lemma HexReadsBack(n: nat)
    requires n < 16
    ensures HexValue(HEX[n]) == n
  {
  }

  lemma HexCharReadsBack(c: char, rest: string)
    requires |EscapeChar(c)| == 6
    ensures Unescape(EscapeChar(c) + rest) == [c] + Unescape(rest)
  {
    var e := EscapeChar(c);
    var hi, lo := c as int / 16, c as int % 16;
    HexReadsBack(hi);
    HexReadsBack(lo);
    assert e == "\\u00" + [HEX[hi], HEX[lo]];
    assert (e + rest)[6..] == rest;
    assert (e + rest)[4] == HEX[hi] && (e + rest)[5] == HEX[lo];
  }

  lemma CharReadsBack(c: char, rest: string)
    ensures Unescape(EscapeChar(c) + rest) == [c] + Unescape(rest)
  {
    var e := EscapeChar(c);
    assert (e + rest)[|e|..] == rest;
    assert forall i :: 0 <= i < |e| ==> (e + rest)[i] == e[i];
    if |e| == 6 {
      HexCharReadsBack(c, rest);
    }
  }

  lemma {:induction false} EscapeReadsBack(s: string)
    ensures Unescape(Escape(s)) == s
    decreases s
  {
    if s != "" {
      CharReadsBack(s[0], Escape(s[1..]));
      EscapeReadsBack(s[1..]);
    }
  }

  /** Control characters do not survive escaping. */
  lemma {:induction false} EscapedIsPrintable(s: string)
    ensures forall i :: 0 <= i < |Escape(s)| ==> Escape(s)[i] >= ' '
    decreases s
  {
    if s != "" {
      EscapedIsPrintable(s[1..]);
      var e := EscapeChar(s[0]);
      assert forall i :: 0 <= i < |e| ==> e[i] >= ' ';
    }
  }

  /** Each notification of a run adds what its store selects at its time. */
  lemma {:induction false} SelectionsAppend(s: Store, ops: seq<Timed>, now: int, eventType: string, data: Event)
    ensures Selections(s, ops + [Timed(now, Notify(eventType, data))]) ==
            Selections(s, ops) + [Selected(Run(s, ops), eventType, data, now)]
    decreases ops
  {
    var last := [Timed(now, Notify(eventType, data))];
    if ops == [] {
      assert ops + last == last && last[1..] == [];
      assert Selections(Step(s, last[0]).0, []) == [];
    } else {
      assert (ops + last)[0] == ops[0] && (ops + last)[1..] == ops[1..] + last;
      SelectionsAppend(Step(s, ops[0]).0, ops[1..], now, eventType, data);
    }
  }

  lemma PrintIntInjective(m: int, n: int)
    ensures PrintInt(m) == PrintInt(n) <==> m == n
    ensures PrintInt(m)[0] == '-' || IsDigit(PrintInt(m)[0])
  {
    PrintIsCanonical(if m < 0 then -m else m);
    PrintIsCanonical(if n < 0 then -n else n);
    assert m < 0 ==> PrintInt(m)[1..] == Print(-m);
    assert n < 0 ==> PrintInt(n)[1..] == Print(-n);
  }

  /** Different values have different texts. */
  lemma DumpInjective(v: Scalar, w: Scalar)
    ensures Dump(v) == Dump(w) <==> v == w
  {
    match (v, w) {
      case (Text(a), Text(b)) =>
        assert Dump(v)[1..|Dump(v)| - 1] == Escape(a) && Dump(w)[1..|Dump(w)| - 1] == Escape(b);
        EscapeReadsBack(a);
        EscapeReadsBack(b);
      case (Number(m), Number(n)) => PrintIntInjective(m, n);
      case _ =>
        FirstChar(v);
        FirstChar(w);
        assert "true"[0] != "false"[0];
    }
  }

  lemma FirstChar(v: Scalar)
    ensures Dump(v) != ""
    ensures v.Text? <==> Dump(v)[0] == '\"'
    ensures v.Number? <==> Dump(v)[0] == '-' || IsDigit(Dump(v)[0])
  {
    if v.Number? {
      PrintIntInjective(v.n, v.n);
    }
  }

  /** A filter made from a value that is not a string admits exactly that value. */
  lemma FilterAdmitsJust(v: Scalar, w: Scalar)
    requires !v.Text?
    ensures Dump(w) == Stored(v) <==> w == v
  {
    DumpInjective(v, w);
  }
}
