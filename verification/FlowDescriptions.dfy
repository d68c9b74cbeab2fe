/** Flow descriptions: port specifications compiled to IPFilterRule text (section 4.3.1 of RFC 6733),
    the text read back, and the pairs of ports the rules admit. */
module FlowDescriptions {
  import opened Options
  import opened Decimal

  datatype PortRange = PortRange(lo: nat, hi: nat)

  datatype PortsSpec = PortsSpec(ranges: seq<PortRange>, ports: seq<nat>)

  // === Generating ===

  function PrintRange(r: PortRange): string {
    if r.lo == r.hi then Print(r.lo) else Print(r.lo) + "-" + Print(r.hi)
  }

  /** The ranges a specification lists: single ports first. */
  function Listed(spec: PortsSpec): seq<PortRange> {
    seq(|spec.ports|, i requires 0 <= i < |spec.ports| => PortRange(spec.ports[i], spec.ports[i])) + spec.ranges
  }

  /** One text per listed port or range. */
  function SpecTexts(spec: PortsSpec): seq<string> {
    var listed := Listed(spec);
    seq(|listed|, i requires 0 <= i < |listed| => PrintRange(listed[i]))
  }

  function OptionalTexts(spec: Option<PortsSpec>): seq<string> {
    if spec.Some? then SpecTexts(spec.value) else []
  }

  /** `collect_port_specs`. */
  method CollectPortSpecs(spec: PortsSpec) returns (texts: seq<string>)
    ensures texts == SpecTexts(spec)
  {
    texts := [];
    for i := 0 to |spec.ports|
      invariant texts == SpecTexts(spec)[..i]
    {
      assert PrintRange(Listed(spec)[i]) == Print(spec.ports[i]);
      texts := texts + [Print(spec.ports[i])];
    }
    for i := 0 to |spec.ranges|
      invariant texts == SpecTexts(spec)[..|spec.ports| + i]
    {
      var r := spec.ranges[i];
      assert Listed(spec)[|spec.ports| + i] == r;
      if r.lo == r.hi {
        texts := texts + [Print(r.lo)];
      } else {
        texts := texts + [Print(r.lo) + "-" + Print(r.hi)];
      }
    }
  }

  /** `format_flow_description`; an empty port text means any port. */
  function Format(dir: string, src: string, srcPort: string, dst: string, dstPort: string): string {
    "permit " + dir + " ip from " + src + PortSuffix(srcPort) + " to " + dst + PortSuffix(dstPort)
  }

  function PortSuffix(text: string): string {
    if text == "" then "" else " " + text
  }

  method FormatFlowDescription(dir: string, src: string, srcPort: string, dst: string, dstPort: string)
    returns (flow: string)
    ensures flow == Format(dir, src, srcPort, dst, dstPort)
  {
    flow := "permit " + dir + " ip from " + src;
    if srcPort != "" {
      flow := flow + (" " + srcPort);
    }
    flow := flow + " to " + dst;
    if dstPort != "" {
      flow := flow + (" " + dstPort);
    }
  }

  /** The texts to combine on one side: no specification leaves one empty text. */
  function Side(texts: seq<string>): seq<string> {
    if texts == [] then [""] else texts
  }

  function Row(f: (string, string) -> string, x: string, ys: seq<string>): seq<string> {
    if ys == [] then [] else Row(f, x, ys[..|ys| - 1]) + [f(x, ys[|ys| - 1])]
  }

  /** Row by row: every source text with every destination text. */
  function Product(f: (string, string) -> string, xs: seq<string>, ys: seq<string>): seq<string> {
    if xs == [] then [] else Product(f, xs[..|xs| - 1], ys) + Row(f, xs[|xs| - 1], ys)
  }

  function Uplink(src: string, dst: string): (string, string) -> string {
    (sp: string, dp: string) => Format("out", src, sp, dst, dp)
  }

  /** `build_flow_filters`: the list of flow descriptions of a session. */
  function FlowsFor(src: string, dst: string, devicePorts: Option<PortsSpec>, serverPorts: Option<PortsSpec>): seq<string> {
    Product(Uplink(src, dst), Side(OptionalTexts(devicePorts)), Side(OptionalTexts(serverPorts)))
  }

  lemma ProductOne(f: (string, string) -> string, x: string, ys: seq<string>)
    ensures Product(f, [x], ys) == Row(f, x, ys)
  {
    assert [x][..0] == [];
    assert Product(f, [], ys) == [];
  }

  lemma RowOne(f: (string, string) -> string, x: string, y: string)
    ensures Row(f, x, [y]) == [f(x, y)]
  {
    assert [y][..0] == [];
    assert Row(f, x, []) == [];
  }

  lemma RowNext(f: (string, string) -> string, x: string, ys: seq<string>, j: nat)
    requires j < |ys|
    ensures Row(f, x, ys[..j + 1]) == Row(f, x, ys[..j]) + [f(x, ys[j])]
  {
    assert ys[..j + 1][..j] == ys[..j];
  }

  lemma ProductNext(f: (string, string) -> string, xs: seq<string>, i: nat, ys: seq<string>)
    requires i < |xs|
    ensures Product(f, xs[..i + 1], ys) == Product(f, xs[..i], ys) + Row(f, xs[i], ys)
  {
    assert xs[..i + 1][..i] == xs[..i];
  }

  /** One flow description for every pair of texts, in row order. */
  method Combine(src: string, dst: string, srcTexts: seq<string>, dstTexts: seq<string>) returns (descs: seq<string>)
    ensures descs == Product(Uplink(src, dst), srcTexts, dstTexts)
  {
    descs := [];
    ghost var f := Uplink(src, dst);
    for i := 0 to |srcTexts|
      invariant descs == Product(f, srcTexts[..i], dstTexts)
    {
      ghost var before := descs;
      for j := 0 to |dstTexts|
        invariant descs == before + Row(f, srcTexts[i], dstTexts[..j])
      {
        var desc := FormatFlowDescription("out", src, srcTexts[i], dst, dstTexts[j]);
        RowNext(f, srcTexts[i], dstTexts, j);
        descs := descs + [desc];
      }
      assert dstTexts[..|dstTexts|] == dstTexts;
      ProductNext(f, srcTexts, i, dstTexts);
    }
    assert srcTexts[..|srcTexts|] == srcTexts;
  }

  method BuildFlowFilters(src: string, dst: string, devicePorts: Option<PortsSpec>, serverPorts: Option<PortsSpec>)
    returns (descs: seq<string>)
    ensures descs == FlowsFor(src, dst, devicePorts, serverPorts)
  {
    var srcTexts: seq<string> := [];
    var dstTexts: seq<string> := [];
    if devicePorts.Some? {
      srcTexts := CollectPortSpecs(devicePorts.value);
    }
    if serverPorts.Some? {
      dstTexts := CollectPortSpecs(serverPorts.value);
    }
    if srcTexts != [] && dstTexts != [] {
      descs := Combine(src, dst, srcTexts, dstTexts);
    } else if srcTexts != [] {
      descs := Combine(src, dst, srcTexts, [""]);
    } else if dstTexts != [] {
      descs := Combine(src, dst, [""], dstTexts);
    } else {
      var desc := FormatFlowDescription("out", src, "", dst, "");
      descs := [desc];
      ProductOne(Uplink(src, dst), "", [""]);
      RowOne(Uplink(src, dst), "", "");
    }
  }

  lemma {:induction false} RowAt(f: (string, string) -> string, x: string, ys: seq<string>)
    ensures |Row(f, x, ys)| == |ys|
    ensures forall j :: 0 <= j < |ys| ==> Row(f, x, ys)[j] == f(x, ys[j])
  {
    if ys != [] {
      RowAt(f, x, ys[..|ys| - 1]);
    }
  }

  lemma {:induction false} ProductLength(f: (string, string) -> string, xs: seq<string>, ys: seq<string>)
    ensures |Product(f, xs, ys)| == |xs| * |ys|
  {
    if xs != [] {
      ProductLength(f, xs[..|xs| - 1], ys);
      RowAt(f, xs[|xs| - 1], ys);
      var n := |xs| - 1;
      assert |xs| * |ys| == n * |ys| + |ys|;
    }
  }

  /** Each combination has its own place: row by row, each once. */
  lemma {:induction false} ProductAt(f: (string, string) -> string, xs: seq<string>, ys: seq<string>, i: nat, j: nat)
    requires i < |xs| && j < |ys|
    ensures |Product(f, xs, ys)| == |xs| * |ys|
    ensures i * |ys| + j < |xs| * |ys| && Product(f, xs, ys)[i * |ys| + j] == f(xs[i], ys[j])
    decreases |xs|
  {
    var front, n := xs[..|xs| - 1], |xs| - 1;
    ProductLength(f, xs, ys);
    ProductLength(f, front, ys);
    RowPlace(i, j, |xs|, |ys|);
    if i < n {
      RowPlace(i, j, n, |ys|);
      ProductAt(f, front, ys, i, j);
    } else {
      RowAt(f, xs[n], ys);
    }
  }

  lemma {:induction false} RowPlace(i: nat, j: nat, n: nat, m: nat)
    requires i < n && j < m
    ensures 0 <= i * m + j < n * m
    decreases n
  {
    assert n * m == (n - 1) * m + m;
    if i < n - 1 {
      RowPlace(i, j, n - 1, m);
    }
  }

  /** The product lists exactly the combinations. */
  lemma {:induction false} ProductMembers(f: (string, string) -> string, xs: seq<string>, ys: seq<string>, v: string)
    ensures v in Product(f, xs, ys) <==> exists i, j :: 0 <= i < |xs| && 0 <= j < |ys| && v == f(xs[i], ys[j])
  {
    if xs != [] {
      var front, x := xs[..|xs| - 1], xs[|xs| - 1];
      ProductMembers(f, front, ys, v);
      RowAt(f, x, ys);
      var row := Row(f, x, ys);
      if v in Product(f, front, ys) {
        var i, j :| 0 <= i < |front| && 0 <= j < |ys| && v == f(front[i], ys[j]);
        assert v == f(xs[i], ys[j]);
      }
      if v in row {
        var j :| 0 <= j < |row| && v == row[j];
        assert v == f(xs[|xs| - 1], ys[j]);
      }
      if i, j :| 0 <= i < |xs| && 0 <= j < |ys| && v == f(xs[i], ys[j]) {
        if i < |front| {
          assert v == f(front[i], ys[j]);
        } else {
          assert row[j] == v;
        }
      }
    }
  }

  // === Reading back ===

  /** An IPFilterRule with one address and at most one port range on each side. */
  datatype Rule = Rule(dir: string, src: string, srcPorts: Option<PortRange>, dst: string, dstPorts: Option<PortRange>)

  /** The words between single spaces. */
  function Split(s: string): (words: seq<string>)
    ensures |words| >= 1
  {
    if s == "" then [""]
    else
      var rest := Split(s[1..]);
      if s[0] == ' ' then [""] + rest else [[s[0]] + rest[0]] + rest[1..]
  }

  /** A port or a range of ports, in canonical decimals. */
  function ParseRange(w: string): Option<PortRange> {
    var n := DigitRun(w);
    if n == 0 then None
    else if n == |w| then Some(PortRange(Value(w[..n]), Value(w[..n])))
    else if w[n] == '-' && n + 1 < |w| && AllDigits(w[n + 1..]) then Some(PortRange(Value(w[..n]), Value(w[n + 1..])))
    else None
  }

  /** "permit" dir "ip" "from" address [ports] "to" address [ports], and nothing else. */
  function ParseRule(text: string): Option<Rule> {
    ParseWords(Split(text))
  }

  function ParseWords(w: seq<string>): Option<Rule> {
    if |w| < 7 || w[0] != "permit" || w[1] !in {"in", "out"} || w[2] != "ip" || w[3] != "from" || w[4] == "" then None
    else
      var withSrc := w[5] != "to";
      var at := if withSrc then 6 else 5;
      var sp := if withSrc then ParseRange(w[5]) else None;
      if (withSrc && sp.None?) || |w| < at + 2 || |w| > at + 3 || w[at] != "to" || w[at + 1] == "" then None
      else if |w| == at + 2 then Some(Rule(w[1], w[4], sp, w[at + 1], None))
      else
        var dp := ParseRange(w[at + 2]);
        if dp.None? then None else Some(Rule(w[1], w[4], sp, w[at + 1], dp))
  }

  predicate NoSpace(s: string) {
    ' ' !in s
  }

  lemma {:induction false} SplitWord(w: string)
    requires NoSpace(w)
    ensures Split(w) == [w]
  {
    if w != "" {
      SplitWord(w[1..]);
      assert [w[0]] + w[1..] == w;
    }
  }

  lemma {:induction false} SplitJoin(w: string, rest: string)
    requires NoSpace(w)
    ensures Split(w + " " + rest) == [w] + Split(rest)
  {
    var s := w + " " + rest;
    if w == "" {
      assert s[0] == ' ' && s[1..] == rest;
    } else {
      assert s[1..] == w[1..] + " " + rest;
      SplitJoin(w[1..], rest);
      assert [w[0]] + w[1..] == w;
    }
  }

  lemma {:induction false} SplitParts(s: string)
    ensures forall i :: 0 <= i < |Split(s)| ==> NoSpace(Split(s)[i])
  {
    if s != "" {
      SplitParts(s[1..]);
    }
  }

  function PortText(r: Option<PortRange>): string {
    if r.Some? then PrintRange(r.value) else ""
  }

  lemma RangeText(r: PortRange)
    ensures NoSpace(PrintRange(r)) && PrintRange(r) != "" && PrintRange(r) != "to"
    ensures ParseRange(PrintRange(r)) == Some(r)
  {
    PrintIsCanonical(r.lo);
    PrintIsCanonical(r.hi);
    var a, b := Print(r.lo), Print(r.hi);
    var w := PrintRange(r);
    assert w[0] == a[0];
    if r.lo == r.hi {
      assert w[..|w|] == w;
      assert DigitRun(w) == |w|;
    } else {
      assert w[..|a|] == a && w[|a|] == '-' && w[|a| + 1..] == b;
      RunOf(w, |a|);
    }
  }

  lemma RunOf(s: string, n: nat)
    requires n < |s| && AllDigits(s[..n]) && !IsDigit(s[n])
    ensures DigitRun(s) == n
  {
  }

  function Join(words: seq<string>): string
    requires words != []
  {
    if |words| == 1 then words[0] else words[0] + " " + Join(words[1..])
  }

  lemma {:induction false} SplitOfJoin(words: seq<string>)
    requires words != [] && forall i :: 0 <= i < |words| ==> NoSpace(words[i])
    ensures Split(Join(words)) == words
  {
    if |words| == 1 {
      SplitWord(words[0]);
    } else {
      SplitOfJoin(words[1..]);
      SplitJoin(words[0], Join(words[1..]));
    }
  }

  function PortWords(r: Option<PortRange>): seq<string> {
    if r.Some? then [PrintRange(r.value)] else []
  }

  /** The words after the source address: its ports if any, then the destination with its ports. */
  function TailWords(sp: Option<PortRange>, dst: string, dp: Option<PortRange>): seq<string> {
    PortWords(sp) + (["to"] + ([dst] + PortWords(dp)))
  }

  lemma JoinCons(w: string, rest: seq<string>)
    requires rest != []
    ensures Join([w] + rest) == w + " " + Join(rest)
  {
    assert ([w] + rest)[1..] == rest;
  }

  lemma DstIsJoin(dst: string, dp: Option<PortRange>)
    ensures Join([dst] + PortWords(dp)) == dst + PortSuffix(PortText(dp))
  {
    if dp.Some? {
      RangeText(dp.value);
      JoinCons(dst, [PrintRange(dp.value)]);
    } else {
      assert [dst] + [] == [dst];
    }
  }

  lemma ToIsJoin(dst: string, dp: Option<PortRange>)
    ensures " to " + dst + PortSuffix(PortText(dp)) == " " + Join(["to"] + ([dst] + PortWords(dp)))
  {
    DstIsJoin(dst, dp);
    JoinCons("to", [dst] + PortWords(dp));
    assert " to " == " " + "to" + " ";
  }

  lemma Regroup(a: string, b: string, c: string, d: string)
    ensures a + b + c + d == a + (b + c + d)
  {
  }

  lemma TailIsJoin(sp: Option<PortRange>, dst: string, dp: Option<PortRange>)
    ensures PortSuffix(PortText(sp)) + " to " + dst + PortSuffix(PortText(dp)) == " " + Join(TailWords(sp, dst, dp))
  {
    ToIsJoin(dst, dp);
    Regroup(PortSuffix(PortText(sp)), " to ", dst, PortSuffix(PortText(dp)));
    var toWords := ["to"] + ([dst] + PortWords(dp));
    if sp.Some? {
      var w := PrintRange(sp.value);
      RangeText(sp.value);
      JoinCons(w, toWords);
      Regroup(" ", w, " ", Join(toWords));
      assert " " + w + (" " + Join(toWords)) == " " + w + " " + Join(toWords);
    } else {
      assert TailWords(sp, dst, dp) == toWords;
    }
  }

  lemma HeadIsJoin(dir: string, src: string, tail: seq<string>)
    requires tail != []
    ensures "permit " + dir + " ip from " + src + (" " + Join(tail)) == Join(["permit", dir, "ip", "from", src] + tail)
  {
    var w := ["permit", dir, "ip", "from", src] + tail;
    assert w[1..] == [dir, "ip", "from", src] + tail;
    assert w[1..][1..] == ["ip", "from", src] + tail;
    assert w[1..][1..][1..] == ["from", src] + tail;
    assert w[1..][1..][1..][1..] == [src] + tail;
    assert w[1..][1..][1..][1..][1..] == tail;
    var x := src + " " + Join(tail);
    assert Join([src] + tail) == x;
    assert Join(["from", src] + tail) == "from" + " " + x;
    assert Join(["ip", "from", src] + tail) == "ip" + " " + ("from" + " " + x);
    assert Join([dir, "ip", "from", src] + tail) == dir + " " + ("ip" + " " + ("from" + " " + x));
  }

  lemma FormatSplit(dir: string, src: string, sp: string, dst: string, dp: string)
    ensures Format(dir, src, sp, dst, dp) ==
            "permit " + dir + " ip from " + src + (PortSuffix(sp) + " to " + dst + PortSuffix(dp))
  {
  }

  lemma FormatIsJoin(dir: string, src: string, sp: Option<PortRange>, dst: string, dp: Option<PortRange>)
    ensures Format(dir, src, PortText(sp), dst, PortText(dp)) ==
            Join(["permit", dir, "ip", "from", src] + TailWords(sp, dst, dp))
  {
    FormatSplit(dir, src, PortText(sp), dst, PortText(dp));
    TailIsJoin(sp, dst, dp);
    HeadIsJoin(dir, src, TailWords(sp, dst, dp));
  }

  predicate AllClean(words: seq<string>) {
    forall i :: 0 <= i < |words| ==> NoSpace(words[i])
  }

  lemma TailIsClean(sp: Option<PortRange>, dst: string, dp: Option<PortRange>)
    requires NoSpace(dst)
    ensures AllClean(TailWords(sp, dst, dp))
  {
    if sp.Some? {
      RangeText(sp.value);
    }
    if dp.Some? {
      RangeText(dp.value);
    }
  }

  lemma FormatWords(dir: string, src: string, sp: Option<PortRange>, dst: string, dp: Option<PortRange>)
    requires NoSpace(dir) && NoSpace(src) && NoSpace(dst)
    ensures Split(Format(dir, src, PortText(sp), dst, PortText(dp))) ==
            ["permit", dir, "ip", "from", src] + TailWords(sp, dst, dp)
  {
    FormatIsJoin(dir, src, sp, dst, dp);
    TailIsClean(sp, dst, dp);
    assert AllClean(["permit", dir, "ip", "from", src]);
    SplitOfJoin(["permit", dir, "ip", "from", src] + TailWords(sp, dst, dp));
  }

  lemma WordsReadBack(dir: string, src: string, sp: Option<PortRange>, dst: string, dp: Option<PortRange>)
    requires dir in {"in", "out"}
    ensures ParseWords(["permit", dir, "ip", "from", src] + TailWords(sp, dst, dp)) ==
            if src == "" || dst == "" then None else Some(Rule(dir, src, sp, dst, dp))
  {
    if sp.Some? {
      RangeText(sp.value);
    }
    if dp.Some? {
      RangeText(dp.value);
    }
  }

  lemma AddressesAreWords(w: seq<string>)
    requires AllClean(w) && ParseWords(w).Some?
    ensures NoSpace(ParseWords(w).value.src) && NoSpace(ParseWords(w).value.dst)
  {
  }

  /** A generated description reads back as the rule it was made from exactly when both addresses are
      single non-empty words. */
  lemma ReadBackIff(dir: string, src: string, sp: Option<PortRange>, dst: string, dp: Option<PortRange>)
    requires dir in {"in", "out"}
    ensures ParseRule(Format(dir, src, PortText(sp), dst, PortText(dp))) == Some(Rule(dir, src, sp, dst, dp)) <==>
            src != "" && NoSpace(src) && dst != "" && NoSpace(dst)
  {
    var text := Format(dir, src, PortText(sp), dst, PortText(dp));
    if NoSpace(src) && NoSpace(dst) {
      FormatWords(dir, src, sp, dst, dp);
      WordsReadBack(dir, src, sp, dst, dp);
    } else if ParseRule(text).Some? {
      SplitParts(text);
      AddressesAreWords(Split(text));
    }
  }

  // === Meaning ===

  predicate InRange(r: Option<PortRange>, port: nat) {
    r.Some? ==> r.value.lo <= port <= r.value.hi
  }

  /** The rule admits traffic between these ports of its two addresses. */
  predicate Admits(rule: Option<Rule>, src: string, dst: string, srcPort: nat, dstPort: nat) {
    && rule.Some? && rule.value.dir == "out" && rule.value.src == src && rule.value.dst == dst
    && InRange(rule.value.srcPorts, srcPort) && InRange(rule.value.dstPorts, dstPort)
  }

  /** The ports a specification stands for; an absent or empty one stands for all. */
  predicate Covers(spec: Option<PortsSpec>, port: nat) {
    || spec.None?
    || (spec.value.ports == [] && spec.value.ranges == [])
    || port in spec.value.ports
    || exists i :: 0 <= i < |spec.value.ranges| && spec.value.ranges[i].lo <= port <= spec.value.ranges[i].hi
  }

  /** The ranges behind the texts of one side. */
  function SideRanges(spec: Option<PortsSpec>): seq<Option<PortRange>> {
    if spec.None? || Listed(spec.value) == [] then [None]
    else seq(|Listed(spec.value)|, i requires 0 <= i < |Listed(spec.value)| => Some(Listed(spec.value)[i]))
  }

  lemma SideIsRanges(spec: Option<PortsSpec>)
    ensures |Side(OptionalTexts(spec))| == |SideRanges(spec)|
    ensures forall i :: 0 <= i < |SideRanges(spec)| ==> Side(OptionalTexts(spec))[i] == PortText(SideRanges(spec)[i])
  {
  }

  lemma CoversIsSomeRange(spec: Option<PortsSpec>, port: nat)
    ensures Covers(spec, port) <==> exists i :: 0 <= i < |SideRanges(spec)| && InRange(SideRanges(spec)[i], port)
  {
    var ranges := SideRanges(spec);
    if spec.None? || Listed(spec.value) == [] {
      assert InRange(ranges[0], port);
      assert spec.Some? ==> |spec.value.ports| + |spec.value.ranges| == 0;
    } else {
      var listed := Listed(spec.value);
      var n := |spec.value.ports|;
      if port in spec.value.ports {
        var i :| 0 <= i < n && spec.value.ports[i] == port;
        assert InRange(ranges[i], port);
      }
      if i :| 0 <= i < |spec.value.ranges| && spec.value.ranges[i].lo <= port <= spec.value.ranges[i].hi {
        assert listed[n + i] == spec.value.ranges[i];
        assert InRange(ranges[n + i], port);
      }
      if i :| 0 <= i < |ranges| && InRange(ranges[i], port) {
        if i < n {
          assert listed[i] == PortRange(spec.value.ports[i], spec.value.ports[i]);
        } else {
          assert listed[i] == spec.value.ranges[i - n];
        }
      }
    }
  }

  function Max1(n: nat): nat {
    if n == 0 then 1 else n
  }

  /** Read back as rules, the generated list admits exactly the product of the two specifications:
      nothing is lost by the text form, and nothing is let in. Its length is the product of the
      numbers of specifications, an empty side counting as one. */
  lemma FlowsMeanTheProduct(src: string, dst: string, devicePorts: Option<PortsSpec>, serverPorts: Option<PortsSpec>,
                            p: nat, q: nat)
    requires src != "" && NoSpace(src) && dst != "" && NoSpace(dst)
    ensures (exists f :: f in FlowsFor(src, dst, devicePorts, serverPorts) && Admits(ParseRule(f), src, dst, p, q)) <==>
            Covers(devicePorts, p) && Covers(serverPorts, q)
    ensures |FlowsFor(src, dst, devicePorts, serverPorts)| ==
            Max1(|OptionalTexts(devicePorts)|) * Max1(|OptionalTexts(serverPorts)|)
  {
    var a, b := Side(OptionalTexts(devicePorts)), Side(OptionalTexts(serverPorts));
    var ra, rb := SideRanges(devicePorts), SideRanges(serverPorts);
    var flow := Uplink(src, dst);
    ProductLength(flow, a, b);
    SideIsRanges(devicePorts);
    SideIsRanges(serverPorts);
    CoversIsSomeRange(devicePorts, p);
    CoversIsSomeRange(serverPorts, q);
    if f :| f in FlowsFor(src, dst, devicePorts, serverPorts) && Admits(ParseRule(f), src, dst, p, q) {
      ProductMembers(flow, a, b, f);
      var i, j :| 0 <= i < |a| && 0 <= j < |b| && f == flow(a[i], b[j]);
      ReadBackIff("out", src, ra[i], dst, rb[j]);
      assert InRange(ra[i], p) && InRange(rb[j], q);
    }
    if Covers(devicePorts, p) && Covers(serverPorts, q) {
      var i :| 0 <= i < |ra| && InRange(ra[i], p);
      var j :| 0 <= j < |rb| && InRange(rb[j], q);
      ReadBackIff("out", src, ra[i], dst, rb[j]);
      var f := flow(a[i], b[j]);
      ProductMembers(flow, a, b, f);
      assert f in FlowsFor(src, dst, devicePorts, serverPorts) && Admits(ParseRule(f), src, dst, p, q);
    }
  }
}
