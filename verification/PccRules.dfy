/** PCC rules to and from the PCF's JSON form, with bandwidths as BitRate text (clause 5.5.2 of
    3GPP TS 29.571). */
module PccRules {
  import opened Options
  import opened Decimal

  datatype Json = JString(s: string) | JInt(n: int) | JArray(items: seq<Json>) | JObject(fields: map<string, Json>)

  type Int32 = n: int | INT_MIN <= n <= INT_MAX

  datatype PccRule = PccRule(
    id: string,
    direction: string,
    flows: seq<string>,
    fiveQi: Int32,
    gbrUl: Int32,
    gbrDl: Int32,
    mbrUl: Int32,
    mbrDl: Int32,
    extra: map<string, string>)

  /** `validate_rule`. */
  predicate Valid(r: PccRule) {
    && r.id != ""
    && r.direction in {"uplink", "downlink", "bidirectional"}
    && 1 <= r.fiveQi <= 79
    && r.gbrUl >= 0 && r.gbrDl >= 0 && r.mbrUl >= 0 && r.mbrDl >= 0
    && (r.mbrUl > 0 ==> r.gbrUl <= r.mbrUl)
    && (r.mbrDl > 0 ==> r.gbrDl <= r.mbrDl)
  }

  // === Converting ===

  function Kbps(n: Int32): string {
    PrintInt(n) + " Kbps"
  }

  function FlowInfo(desc: string): Json {
    JObject(map["flowDescription" := JString(desc)])
  }

  function FlowInfos(flows: seq<string>): seq<Json> {
    seq(|flows|, i requires 0 <= i < |flows| => FlowInfo(flows[i]))
  }

  /** A pair of rates is written when either is positive, and then both are. */
  function RatePair(up: string, down: string, ul: Int32, dl: Int32): map<string, Json> {
    if ul > 0 || dl > 0 then map[up := JString(Kbps(ul)), down := JString(Kbps(dl))] else map[]
  }

  function QosData(r: PccRule): map<string, Json> {
    map["5qi" := JInt(r.fiveQi)] + RatePair("gbrUl", "gbrDl", r.gbrUl, r.gbrDl) + RatePair("mbrUl", "mbrDl", r.mbrUl, r.mbrDl)
  }

  function Extras(extra: map<string, string>): map<string, Json> {
    map k | k in extra :: JString(extra[k])
  }

  /** `convert_rule_to_pcf_format`: additional parameters come last and overwrite. */
  function Convert(r: PccRule): map<string, Json> {
    map["pccRuleId" := JString(r.id)]
    + (if r.flows == [] then map[] else map["flowInfos" := JArray(FlowInfos(r.flows))])
    + map["qosData" := JObject(QosData(r))]
    + Extras(r.extra)
  }

  // === Parsing ===

  function FindFrom(s: string, t: string, i: nat): Option<nat>
    decreases |s| - i
  {
    if i + |t| > |s| then None
    else if s[i..i + |t|] == t then Some(i)
    else FindFrom(s, t, i + 1)
  }

  function Find(s: string, t: string): Option<nat> {
    FindFrom(s, t, 0)
  }

  function OrZero(o: Option<int>): (n: Int32)
    requires o.Some? ==> INT_MIN <= o.value <= INT_MAX
  {
    if o.Some? then o.value else 0
  }

  lemma {:induction false} StoiInRange(s: string)
    ensures Stoi(s).Some? ==> INT_MIN <= Stoi(s).value <= INT_MAX
  {
    if s != "" && IsSpace(s[0]) {
      StoiInRange(s[1..]);
    }
  }

  /** `parse_bandwidth`: the number before " Kbps" or " kbps", or at the start of other text; zero when
      there is none. */
  function ParseBandwidth(s: string): Int32 {
    var pos := if Find(s, " Kbps").Some? then Find(s, " Kbps") else Find(s, " kbps");
    var text := if pos.Some? && pos.value <= |s| then s[..pos.value] else s;
    StoiInRange(text);
    OrZero(Stoi(text))
  }

  /** `get<int>` on a JSON integer keeps the low 32 bits. */
  function Narrow(n: int): Int32 {
    (n + 0x8000_0000) % 0x1_0000_0000 - 0x8000_0000
  }

  /** The flow descriptions of an array; None when one is not text (the conversion throws). */
  function ParseFlows(items: seq<Json>): Option<seq<string>> {
    if items == [] then Some([])
    else
      var rest := ParseFlows(items[..|items| - 1]);
      var last := items[|items| - 1];
      if rest.None? then None
      else if !last.JObject? || "flowDescription" !in last.fields then rest
      else if !last.fields["flowDescription"].JString? then None
      else Some(rest.value + [last.fields["flowDescription"].s])
  }

  function ParseRate(qos: map<string, Json>, key: string): Option<Int32> {
    if key !in qos then Some(0)
    else if !qos[key].JString? then None
    else Some(ParseBandwidth(qos[key].s))
  }

  function ParseFiveQi(qos: map<string, Json>): Option<Int32> {
    if "5qi" !in qos then Some(0)
    else if !qos["5qi"].JInt? then None
    else Some(Narrow(qos["5qi"].n))
  }

  /** The fields of the QoS object; text in its place has none. */
  function QosFields(json: map<string, Json>): map<string, Json> {
    if "qosData" in json && json["qosData"].JObject? then json["qosData"].fields else map[]
  }

  function FlowsIn(json: map<string, Json>): Option<seq<string>> {
    if "flowInfos" in json && json["flowInfos"].JArray? then ParseFlows(json["flowInfos"].items) else Some([])
  }

  /** `parse_rule_from_pcf_format`; None where a conversion throws and no rule is returned. */
  function Parse(json: map<string, Json>, newId: string): Option<PccRule> {
    var qos := QosFields(json);
    if "pccRuleId" in json && !json["pccRuleId"].JString? then None
    else if FlowsIn(json).None? || ParseFiveQi(qos).None? then None
    else if ParseRate(qos, "gbrUl").None? || ParseRate(qos, "gbrDl").None? then None
    else if ParseRate(qos, "mbrUl").None? || ParseRate(qos, "mbrDl").None? then None
    else Some(PccRule(if "pccRuleId" in json then json["pccRuleId"].s else newId, "bidirectional", FlowsIn(json).value,
                      ParseFiveQi(qos).value, ParseRate(qos, "gbrUl").value, ParseRate(qos, "gbrDl").value,
                      ParseRate(qos, "mbrUl").value, ParseRate(qos, "mbrDl").value, map[]))
  }

  lemma WriteField(json: map<string, Json>, key: string, value: Json)
    ensures json[key := value] == json + map[key := value]
    ensures json + map[] == json
  {
  }

  /** The parameters among these keys, as they are written. */
  ghost function Written(extra: map<string, string>, keys: set<string>): map<string, Json>
    requires keys <= extra.Keys
  {
    map k | k in keys :: JString(extra[k])
  }

  lemma WriteOne(json: map<string, Json>, extra: map<string, string>, keys: set<string>, k: string)
    requires keys <= extra.Keys && k in extra
    ensures (json + Written(extra, keys))[k := JString(extra[k])] == json + Written(extra, keys + {k})
  {
  }

  // === The manager ===

  class PccRuleManager {
    var rulesCache: map<string, PccRule>

    constructor ()
      ensures rulesCache == map[]
    {
      rulesCache := map[];
    }

    /** `validate_rule`, check by check. */
    method ValidateRule(r: PccRule) returns (ok: bool)
      ensures ok == Valid(r)
      ensures ok <==>
                && r.id != "" && (r.direction == "uplink" || r.direction == "downlink" || r.direction == "bidirectional")
                && !(r.fiveQi < 1) && !(r.fiveQi > 79)
                && r.gbrUl >= 0 && r.gbrDl >= 0 && r.mbrUl >= 0 && r.mbrDl >= 0
                && (r.gbrUl <= r.mbrUl || r.mbrUl == 0) && (r.gbrDl <= r.mbrDl || r.mbrDl == 0)
    {
      if r.id == "" {
        return false;
      }
      if r.direction != "uplink" && r.direction != "downlink" && r.direction != "bidirectional" {
        return false;
      }
      if r.fiveQi < 1 || r.fiveQi > 79 {
        return false;
      }
      if r.gbrUl < 0 || r.gbrDl < 0 || r.mbrUl < 0 || r.mbrDl < 0 {
        return false;
      }
      if (r.mbrUl > 0 && r.gbrUl > r.mbrUl) || (r.mbrDl > 0 && r.gbrDl > r.mbrDl) {
        return false;
      }
      ok := true;
    }

    /** The loop over the additional parameters, in whatever order the map yields them. */
    method WriteExtras(json: map<string, Json>, extra: map<string, string>) returns (r: map<string, Json>)
      ensures r == json + Extras(extra)
    {
      r := json;
      var todo := extra.Keys;
      while todo != {}
        invariant todo <= extra.Keys
        invariant r == json + Written(extra, extra.Keys - todo)
        decreases |todo|
      {
        var k :| k in todo;
        WriteOne(json, extra, extra.Keys - todo, k);
        assert extra.Keys - (todo - {k}) == extra.Keys - todo + {k};
        r := r[k := JString(extra[k])];
        todo := todo - {k};
      }
      assert Written(extra, extra.Keys - {}) == Extras(extra);
    }

    method BuildQosData(r: PccRule) returns (qos: map<string, Json>)
      ensures qos == QosData(r)
    {
      qos := map["5qi" := JInt(r.fiveQi)];
      if r.gbrUl > 0 || r.gbrDl > 0 {
        qos := qos["gbrUl" := JString(Kbps(r.gbrUl))]["gbrDl" := JString(Kbps(r.gbrDl))];
      }
      assert qos == map["5qi" := JInt(r.fiveQi)] + RatePair("gbrUl", "gbrDl", r.gbrUl, r.gbrDl);
      ghost var before := qos;
      if r.mbrUl > 0 || r.mbrDl > 0 {
        qos := qos["mbrUl" := JString(Kbps(r.mbrUl))]["mbrDl" := JString(Kbps(r.mbrDl))];
      }
      assert qos == before + RatePair("mbrUl", "mbrDl", r.mbrUl, r.mbrDl);
    }

    method ConvertRuleToPcfFormat(r: PccRule) returns (json: map<string, Json>)
      ensures json == Convert(r)
    {
      json := map["pccRuleId" := JString(r.id)];
      if r.flows != [] {
        var infos: seq<Json> := [];
        for i := 0 to |r.flows|
          invariant infos == FlowInfos(r.flows)[..i]
        {
          infos := infos + [FlowInfo(r.flows[i])];
        }
        assert infos == FlowInfos(r.flows);
        WriteField(json, "flowInfos", JArray(infos));
        json := json["flowInfos" := JArray(infos)];
      }
      var qos := BuildQosData(r);
      WriteField(json, "qosData", JObject(qos));
      json := json["qosData" := JObject(qos)];
      json := WriteExtras(json, r.extra);
    }

    method ParseRuleFromPcfFormat(json: map<string, Json>, newId: string) returns (rule: Option<PccRule>)
      modifies this
      ensures rule == Parse(json, newId)
      ensures rulesCache == if rule.Some? then old(rulesCache)[rule.value.id := rule.value] else old(rulesCache)
    {
      if "pccRuleId" in json && !json["pccRuleId"].JString? {
        return None;
      }
      var id := if "pccRuleId" in json then json["pccRuleId"].s else newId;
      var flows: seq<string> := [];
      if "flowInfos" in json && json["flowInfos"].JArray? {
        var items := json["flowInfos"].items;
        for i := 0 to |items|
          invariant ParseFlows(items[..i]) == Some(flows)
        {
          assert items[..i + 1][..i] == items[..i];
          if items[i].JObject? && "flowDescription" in items[i].fields {
            if !items[i].fields["flowDescription"].JString? {
              FailsForGood(items, i + 1);
              return None;
            }
            flows := flows + [items[i].fields["flowDescription"].s];
          }
        }
        assert items[..|items|] == items;
      }
      var qos := QosFields(json);
      var fiveQi, gu, gd := ParseFiveQi(qos), ParseRate(qos, "gbrUl"), ParseRate(qos, "gbrDl");
      var mu, md := ParseRate(qos, "mbrUl"), ParseRate(qos, "mbrDl");
      if fiveQi.None? || gu.None? || gd.None? || mu.None? || md.None? {
        return None;
      }
      rule := Some(PccRule(id, "bidirectional", flows, fiveQi.value, gu.value, gd.value, mu.value, md.value, map[]));
      rulesCache := rulesCache[rule.value.id := rule.value];
    }
  }

  lemma {:induction false} FailsForGood(items: seq<Json>, n: nat)
    requires n <= |items| && ParseFlows(items[..n]).None?
    ensures ParseFlows(items).None?
    decreases |items| - n
  {
    if n == |items| {
      assert items[..n] == items;
    } else {
      assert items[..n + 1][..n] == items[..n];
      FailsForGood(items, n + 1);
    }
  }

  // === Round trip ===

  lemma {:induction false} FindSkips(s: string, t: string, i: nat, n: nat)
    requires i <= n && n + |t| == |s| && s[n..] == t && t != ""
    requires forall k :: 0 <= k < n ==> s[k] != t[0]
    ensures FindFrom(s, t, i) == Some(n)
    decreases n - i
  {
    if i < n {
      assert s[i..i + |t|][0] == s[i];
      FindSkips(s, t, i + 1, n);
    } else {
      assert s[n..n + |t|] == s[n..];
    }
  }

  lemma RateReadBack(n: Int32)
    ensures ParseBandwidth(Kbps(n)) == n
  {
    var text := PrintInt(n);
    var m: int := n;
    PrintIsCanonical(if m < 0 then -m else m);
    var s := Kbps(n);
    assert s[|text|..] == " Kbps" && s[..|text|] == text;
    assert forall k :: 0 <= k < |text| ==> s[k] == text[k] && text[k] != ' ';
    FindSkips(s, " Kbps", 0, |text|);
    StoiPrintInt(n);
  }

  lemma {:induction false} FlowsReadBack(flows: seq<string>)
    ensures ParseFlows(FlowInfos(flows)) == Some(flows)
  {
    if flows != [] {
      var front := flows[..|flows| - 1];
      FlowsReadBack(front);
      assert FlowInfos(flows)[..|flows| - 1] == FlowInfos(front);
      assert flows == front + [flows[|flows| - 1]];
    }
  }

  /** What a rule must agree on with the rule it was made from. */
  predicate Preserved(r: PccRule, p: Option<PccRule>) {
    p.Some? && p.value == r.(direction := "bidirectional", extra := map[])
  }

  /** No additional parameter spoils a reserved field: it never replaces the QoS data, replaces the
      flow list only when that is empty, and the id only by itself. */
  predicate HarmlessExtras(r: PccRule) {
    && "qosData" !in r.extra
    && ("flowInfos" in r.extra ==> r.flows == [])
    && ("pccRuleId" in r.extra ==> r.extra["pccRuleId"] == r.id)
  }

  lemma RateInUnion(m: map<string, Json>, n: map<string, Json>, key: string)
    ensures ParseRate(m + n, key) == if key in n then ParseRate(n, key) else ParseRate(m, key)
  {
  }

  /** A pair of rates reads back; two zeros are not written and read as zeros. */
  lemma PairReadBack(up: string, down: string, ul: Int32, dl: Int32)
    requires up != down && ul >= 0 && dl >= 0
    ensures ParseRate(RatePair(up, down, ul, dl), up) == Some(ul)
    ensures ParseRate(RatePair(up, down, ul, dl), down) == Some(dl)
  {
    RateReadBack(ul);
    RateReadBack(dl);
  }

  lemma KeysDiffer()
    ensures "gbrUl" != "gbrDl" && "mbrUl" != "mbrDl"
    ensures "5qi" !in {"gbrUl", "gbrDl", "mbrUl", "mbrDl"}
    ensures {"gbrUl", "gbrDl"} !! {"mbrUl", "mbrDl"}
    ensures "pccRuleId" != "flowInfos" && "pccRuleId" != "qosData" && "flowInfos" != "qosData"
  {
    assert "gbrUl"[3] != "gbrDl"[3] && "mbrUl"[3] != "mbrDl"[3];
    assert "gbrUl"[0] != "mbrUl"[0] && "gbrUl"[0] != "mbrDl"[0] && "gbrDl"[0] != "mbrUl"[0] && "gbrDl"[0] != "mbrDl"[0];
  }

  lemma RateReadsBack(r: PccRule, key: string)
    requires Valid(r) && key in {"gbrUl", "gbrDl", "mbrUl", "mbrDl"}
    ensures ParseRate(QosData(r), key) == if key in {"gbrUl", "gbrDl"}
                                          then ParseRate(RatePair("gbrUl", "gbrDl", r.gbrUl, r.gbrDl), key)
                                          else ParseRate(RatePair("mbrUl", "mbrDl", r.mbrUl, r.mbrDl), key)
  {
    KeysDiffer();
    var first := map["5qi" := JInt(r.fiveQi)];
    var gbr, mbr := RatePair("gbrUl", "gbrDl", r.gbrUl, r.gbrDl), RatePair("mbrUl", "mbrDl", r.mbrUl, r.mbrDl);
    assert key !in first;
    RateInUnion(first + gbr, mbr, key);
    RateInUnion(first, gbr, key);
  }

  lemma FiveQiReadsBack(r: PccRule)
    requires Valid(r)
    ensures ParseFiveQi(QosData(r)) == Some(r.fiveQi)
  {
    KeysDiffer();
    var gbr, mbr := RatePair("gbrUl", "gbrDl", r.gbrUl, r.gbrDl), RatePair("mbrUl", "mbrDl", r.mbrUl, r.mbrDl);
    assert "5qi" !in gbr && "5qi" !in mbr;
    assert QosData(r)["5qi"] == JInt(r.fiveQi);
  }

  lemma QosReadBack(r: PccRule)
    requires Valid(r)
    ensures ParseFiveQi(QosData(r)) == Some(r.fiveQi)
    ensures ParseRate(QosData(r), "gbrUl") == Some(r.gbrUl) && ParseRate(QosData(r), "gbrDl") == Some(r.gbrDl)
    ensures ParseRate(QosData(r), "mbrUl") == Some(r.mbrUl) && ParseRate(QosData(r), "mbrDl") == Some(r.mbrDl)
  {
    KeysDiffer();
    FiveQiReadsBack(r);
    PairReadBack("gbrUl", "gbrDl", r.gbrUl, r.gbrDl);
    PairReadBack("mbrUl", "mbrDl", r.mbrUl, r.mbrDl);
    RateReadsBack(r, "gbrUl");
    RateReadsBack(r, "gbrDl");
    RateReadsBack(r, "mbrUl");
    RateReadsBack(r, "mbrDl");
  }

  /** Where the three reserved fields of a converted rule come from. */
  lemma ReservedFields(r: PccRule)
    ensures var json := Convert(r);
            && "pccRuleId" in json && "qosData" in json
            && json["pccRuleId"] == (if "pccRuleId" in r.extra then JString(r.extra["pccRuleId"]) else JString(r.id))
            && json["qosData"] == (if "qosData" in r.extra then JString(r.extra["qosData"]) else JObject(QosData(r)))
            && ("flowInfos" in json <==> "flowInfos" in r.extra || r.flows != [])
            && ("flowInfos" in r.extra ==> json["flowInfos"] == JString(r.extra["flowInfos"]))
            && ("flowInfos" !in r.extra && r.flows != [] ==> json["flowInfos"] == JArray(FlowInfos(r.flows)))
  {
    KeysDiffer();
  }

  /** A valid rule survives conversion and parsing, up to its direction and additional parameters,
      exactly when its additional parameters are harmless; the rule read back is then valid. */
  lemma RoundTripIff(r: PccRule, newId: string)
    requires Valid(r)
    ensures Preserved(r, Parse(Convert(r), newId)) <==> HarmlessExtras(r)
    ensures HarmlessExtras(r) ==> Valid(Parse(Convert(r), newId).value)
  {
    var json := Convert(r);
    ReservedFields(r);
    FlowsReadBack(r.flows);
    QosReadBack(r);
    assert QosFields(json) == if "qosData" in r.extra then map[] else QosData(r);
    assert FlowsIn(json) == Some(if "flowInfos" in r.extra then [] else r.flows);
  }

  // === BitRate text ===

  predicate SomeDigits(s: string) {
    s != "" && AllDigits(s)
  }

  /** A match of ^\d+(\.\d+)? (bps|Kbps|Mbps|Gbps|Tbps)$ with its parts. */
  predicate RateParts(s: string, whole: string, fraction: string, unit: string) {
    && s == whole + fraction + " " + unit
    && SomeDigits(whole) && (fraction == "" || (fraction[0] == '.' && SomeDigits(fraction[1..])))
    && unit in {"bps", "Kbps", "Mbps", "Gbps", "Tbps"}
  }

  /** `is_valid_bitrate`. */
  ghost predicate IsBitRate(s: string) {
    exists whole, fraction, unit :: RateParts(s, whole, fraction, unit)
  }

  /** A printed rate matches the grammar exactly when it is not negative. */
  lemma RateIsBitRateIff(n: Int32)
    ensures IsBitRate(Kbps(n)) <==> n >= 0
  {
    if n >= 0 {
      PrintIsCanonical(n);
      assert Kbps(n) == Print(n) + "" + " " + "Kbps";
      assert RateParts(Kbps(n), Print(n), "", "Kbps");
    } else {
      forall whole, fraction, unit
        ensures !RateParts(Kbps(n), whole, fraction, unit)
      {
        StartsWithDigit(Kbps(n), whole, fraction, unit);
      }
    }
  }

  lemma StartsWithDigit(s: string, whole: string, fraction: string, unit: string)
    ensures RateParts(s, whole, fraction, unit) ==> s != "" && IsDigit(s[0])
  {
    if RateParts(s, whole, fraction, unit) {
      assert s[0] == whole[0];
    }
  }

  lemma RatePairText(up: string, down: string, ul: Int32, dl: Int32, key: string)
    requires ul >= 0 && dl >= 0 && key in RatePair(up, down, ul, dl)
    ensures var v := RatePair(up, down, ul, dl)[key]; v.JString? && IsBitRate(v.s)
  {
    RateIsBitRateIff(ul);
    RateIsBitRateIff(dl);
  }

  /** Every rate a valid rule emits is BitRate text. */
  lemma EmittedRates(r: PccRule, key: string)
    requires Valid(r) && key in {"gbrUl", "gbrDl", "mbrUl", "mbrDl"} && key in QosData(r)
    ensures QosData(r)[key].JString? && IsBitRate(QosData(r)[key].s)
  {
    KeysDiffer();
    if key in RatePair("mbrUl", "mbrDl", r.mbrUl, r.mbrDl) {
      RatePairText("mbrUl", "mbrDl", r.mbrUl, r.mbrDl, key);
    } else {
      RatePairText("gbrUl", "gbrDl", r.gbrUl, r.gbrDl, key);
    }
  }
}
