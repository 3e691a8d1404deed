/** Forwarding rules: their text form, and sets of them (internal/forward/forward.go). */
module Forward {
  import opened Common
  import opened Text

  datatype Rule = Rule(vport: uint16, targetIp: uint32, targetPort: uint16)

  /** Rules that can be written down: both ports in 1..65535. */
  predicate ValidRule(r: Rule) { r.vport > 0 && r.targetPort > 0 }

  function TargetString(r: Rule): string { IpString(r.targetIp) + ":" + Decimal(r.targetPort) }
  function RuleString(r: Rule): string { Decimal(r.vport) + "=" + TargetString(r) }

  // ----- Parsing one rule -----

  function ParsePort(s: string): (r: Option<uint16>)
    ensures r.Some? ==> r.value > 0
  {
    match Atoi(TrimSpace(s))
    case None => None
    case Some(n) => if n < 1 || n > 65535 then None else Some(n)
  }

  predicate Has(s: string, c: char) { Index(s, c) < |s| }

  /** `net.SplitHostPort`. */
  function SplitHostPort(s: string): Option<(string, string)> {
    var colon := LastIndex(s, ':');
    if colon == 0 then None
    else
      var i := colon - 1;
      if s[0] == '[' then
        var end := Index(s, ']');
        if end == |s| || end + 1 != i || Has(s[1..], '[') || Has(s[end + 1..], ']') then None
        else Some((s[1..end], s[i + 1..]))
      else if Has(s[..i], ':') || Has(s, '[') || Has(s, ']') then None
      else Some((s[..i], s[i + 1..]))
  }

  /** `Parse`: virtual port, `=`, host, `:`, port. */
  function Parse(s: string): (r: Option<Rule>)
    ensures r.Some? ==> ValidRule(r.value)
  {
    var eq := Index(s, '=');
    if eq == |s| then None
    else
      match ParsePort(TrimSpace(s[..eq]))
      case None => None
      case Some(vport) =>
        match SplitHostPort(TrimSpace(s[eq + 1..]))
        case None => None
        case Some((host, portStr)) =>
          match ParseIp4(TrimSpace(host))
          case None => None
          case Some(ip) =>
            match ParsePort(portStr)
            case None => None
            case Some(tport) => Some(Rule(vport, ip, tport))
  }

  predicate NoSpace(s: string) { forall i | 0 <= i < |s| :: !IsSpace(s[i]) }

  lemma TrimNothing(s: string)
    requires NoSpace(s)
    ensures TrimSpace(s) == s
  {
  }

  lemma IpStringChars(v: uint32)
    ensures var s := IpString(v); s != [] && forall i | 0 <= i < |s| :: IsDigit(s[i]) || s[i] == '.'
  {
  }

  lemma ParsePortDecimal(p: uint16)
    requires p > 0
    ensures ParsePort(Decimal(p)) == Some(p) && TrimSpace(Decimal(p)) == Decimal(p)
  {
    TrimNothing(Decimal(p));
    AtoiDecimal(p);
  }

  lemma NotFound(s: string, c: char)
    requires forall i | 0 <= i < |s| :: s[i] != c
    ensures !Has(s, c)
  {
  }

  /** The last colon separates a host without colons from a port of digits. */
  lemma SplitPlain(host: string, port: string)
    requires host != [] && (forall i | 0 <= i < |host| :: IsDigit(host[i]) || host[i] == '.') && AllDigits(port)
    ensures SplitHostPort(host + ":" + port) == Some((host, port))
  {
    var s := host + ":" + port;
    LastIndexIs(s, ':', |host|);
    assert s[..|host|] == host && s[|host| + 1..] == port;
    NotFound(host, ':');
    NotFound(s, '[');
    NotFound(s, ']');
  }

  lemma SplitTarget(r: Rule)
    ensures SplitHostPort(TargetString(r)) == Some((IpString(r.targetIp), Decimal(r.targetPort)))
    ensures NoSpace(TargetString(r)) && NoSpace(IpString(r.targetIp))
  {
    IpStringChars(r.targetIp);
    SplitPlain(IpString(r.targetIp), Decimal(r.targetPort));
  }

  lemma CutRule(v: string, t: string)
    requires AllDigits(v)
    ensures var s := v + "=" + t; Index(s, '=') == |v| < |s| && s[..|v|] == v && s[|v| + 1..] == t
  {
    IndexIs(v + "=" + t, '=', |v|);
  }

  /** Printing a rule and parsing it gives the rule back. */
  lemma RuleRoundTrip(r: Rule)
    requires ValidRule(r)
    ensures Parse(RuleString(r)) == Some(r)
  {
    CutRule(Decimal(r.vport), TargetString(r));
    ParsePortDecimal(r.vport);
    SplitTarget(r);
    TrimNothing(TargetString(r));
    TrimNothing(IpString(r.targetIp));
    IpRoundTrip(r.targetIp);
    ParsePortDecimal(r.targetPort);
  }

  /** Every accepted line, however it is spaced or padded, has a canonical form that parses to
      the same rule, and two accepted lines mean the same rule exactly when they share it. */
  lemma CanonicalForm(s: string, t: string)
    requires Parse(s).Some?
    ensures Parse(RuleString(Parse(s).value)) == Parse(s)
    ensures Parse(t).Some? ==> (Parse(s) == Parse(t) <==> RuleString(Parse(s).value) == RuleString(Parse(t).value))
  {
    RuleRoundTrip(Parse(s).value);
    if Parse(t).Some? { RuleRoundTrip(Parse(t).value); }
  }

  // ----- Lists and sets of rules -----

  predicate AllParse(list: seq<string>) { forall i | 0 <= i < |list| :: Parse(list[i]).Some? }

  function ParseAll(list: seq<string>): (rs: seq<Rule>)
    requires AllParse(list)
    ensures |rs| == |list| && forall i | 0 <= i < |list| :: rs[i] == Parse(list[i]).value
  {
    seq(|list|, i requires 0 <= i < |list| => Parse(list[i]).value)
  }

  predicate DistinctPorts(rs: seq<Rule>) {
    forall i, j | 0 <= i < j < |rs| :: rs[i].vport != rs[j].vport
  }

  /** The loop of `ParseList`, for any parser of single lines. */
  method ParseEach(parse: string -> Option<Rule>, list: seq<string>) returns (r: Option<seq<Rule>>)
    ensures r.Some? <==> forall i | 0 <= i < |list| :: parse(list[i]).Some?
    ensures r.Some? ==> |r.value| == |list|
    ensures r.Some? ==> forall i | 0 <= i < |list| :: parse(list[i]) == Some(r.value[i])
  {
    var out: seq<Rule> := [];
    for i := 0 to |list|
      invariant |out| == i && forall k | 0 <= k < i :: parse(list[k]) == Some(out[k])
    {
      var rule := parse(list[i]);
      if rule.None? { return None; }
      out := out + [rule.value];
    }
    return Some(out);
  }

  /** Succeeds exactly when every line parses. */
  method ParseList(list: seq<string>) returns (r: Option<seq<Rule>>)
    ensures r.Some? <==> AllParse(list)
    ensures r.Some? ==> r.value == ParseAll(list)
  {
    r := ParseEach(Parse, list);
  }

  /** Whether `ParseSet` accepts a list. */
  predicate Accepts(list: seq<string>) { AllParse(list) && DistinctPorts(ParseAll(list)) }

  predicate PortUsed(rs: seq<Rule>, n: nat, p: uint16)
    requires n <= |rs|
  {
    exists k | 0 <= k < n :: rs[k].vport == p
  }

  /** The loop of `ParseSet`: looks for a port used twice. */
  method HasDuplicate(rs: seq<Rule>) returns (dup: bool)
    ensures dup <==> !DistinctPorts(rs)
  {
    var seen: map<uint16, string> := map[];
    for i := 0 to |rs|
      invariant forall j, k | 0 <= j < k < i :: rs[j].vport != rs[k].vport
      invariant forall p :: p in seen <==> PortUsed(rs, i, p)
    {
      if rs[i].vport in seen {
        assert PortUsed(rs, i, rs[i].vport);
        return true;
      }
      seen := seen[rs[i].vport := RuleString(rs[i])];
      forall p ensures PortUsed(rs, i + 1, p) <==> PortUsed(rs, i, p) || rs[i].vport == p {
        if rs[i].vport == p { assert PortUsed(rs, i + 1, p); }
      }
    }
    return false;
  }

  /** Succeeds exactly when every line parses and no virtual port is used twice. */
  method ParseSet(list: seq<string>) returns (r: Option<seq<Rule>>)
    ensures r.Some? <==> Accepts(list)
    ensures r.Some? ==> r.value == ParseAll(list)
  {
    r := ParseList(list);
    if r.None? { return; }
    var dup := HasDuplicate(r.value);
    if dup { r := None; }
  }

  // ----- The map SetRules builds -----

  /** One entry per port; a later rule replaces an earlier one. */
  function RuleMap(rs: seq<Rule>): map<uint16, Rule> {
    if rs == [] then map[] else RuleMap(rs[..|rs| - 1])[rs[|rs| - 1].vport := rs[|rs| - 1]]
  }

  /** Looking a port up by going through the rules in order. */
  function Find(rs: seq<Rule>, p: uint16): Option<Rule> {
    if rs == [] then None else if rs[0].vport == p then Some(rs[0]) else Find(rs[1..], p)
  }

  function Lookup(m: map<uint16, Rule>, p: uint16): Option<Rule> { if p in m then Some(m[p]) else None }

  lemma {:induction false} FindSnoc(rs: seq<Rule>, r: Rule, p: uint16)
    ensures Find(rs + [r], p) == if Find(rs, p).Some? then Find(rs, p) else if r.vport == p then Some(r) else None
    decreases |rs|
  {
    if rs == [] {
      assert rs + [r] == [r] && [r][1..] == [];
    } else {
      assert (rs + [r])[1..] == rs[1..] + [r];
      FindSnoc(rs[1..], r, p);
    }
  }

  lemma {:induction false} FindAt(rs: seq<Rule>, p: uint16)
    ensures Find(rs, p).Some? ==> Find(rs, p).value.vport == p && Find(rs, p).value in rs
    decreases |rs|
  {
    if rs != [] && rs[0].vport != p {
      FindAt(rs[1..], p);
    }
  }

  /** For an accepted list the map has one entry per rule and agrees with linear search. */
  lemma {:induction false} RuleMapIsSearch(rs: seq<Rule>, p: uint16)
    requires DistinctPorts(rs)
    ensures Lookup(RuleMap(rs), p) == Find(rs, p)
    ensures |RuleMap(rs)| == |rs|
    decreases |rs|
  {
    if rs != [] {
      var init, z := rs[..|rs| - 1], rs[|rs| - 1];
      assert rs == init + [z];
      RuleMapIsSearch(init, p);
      FindSnoc(init, z, p);
      FindAt(init, p);
      if z.vport in RuleMap(init) {
        RuleMapIsSearch(init, z.vport);
        FindAt(init, z.vport);
      }
    }
  }

  lemma {:induction false} RuleMapKeys(rs: seq<Rule>, p: uint16)
    ensures p in RuleMap(rs) <==> PortUsed(rs, |rs|, p)
    decreases |rs|
  {
    if rs != [] {
      var init, z := rs[..|rs| - 1], rs[|rs| - 1];
      RuleMapKeys(init, p);
      if p in RuleMap(init) {
        var k :| 0 <= k < |init| && init[k].vport == p;
        assert rs[k].vport == p;
      }
      if PortUsed(rs, |rs|, p) && z.vport != p {
        var k :| 0 <= k < |rs| && rs[k].vport == p;
        assert init[k].vport == p;
      }
    }
  }

  /** A list with a repeated port loses a rule: its map is smaller than the list. */
  lemma {:induction false} RuleMapSize(rs: seq<Rule>)
    ensures |RuleMap(rs)| <= |rs|
    ensures |RuleMap(rs)| == |rs| <==> DistinctPorts(rs)
    decreases |rs|
  {
    if rs != [] {
      var init, z := rs[..|rs| - 1], rs[|rs| - 1];
      var m := RuleMap(init);
      RuleMapSize(init);
      RuleMapKeys(init, z.vport);
      DistinctSnoc(init, z);
      assert rs == init + [z];
      if z.vport in m {
        assert m[z.vport := z].Keys == m.Keys;
        assert |m[z.vport := z]| == |m.Keys| == |m|;
      } else {
        assert m[z.vport := z].Keys == m.Keys + {z.vport};
        assert |m[z.vport := z]| == |m| + 1;
      }
    }
  }

  lemma DistinctSnoc(rs: seq<Rule>, z: Rule)
    ensures DistinctPorts(rs + [z]) <==> DistinctPorts(rs) && !PortUsed(rs, |rs|, z.vport)
  {
    var all := rs + [z];
    if PortUsed(rs, |rs|, z.vport) {
      var k :| 0 <= k < |rs| && rs[k].vport == z.vport;
      assert all[k].vport == all[|rs|].vport;
    } else {
      assert forall k | 0 <= k < |rs| :: all[k].vport != z.vport;
      if DistinctPorts(all) {
        forall i, j | 0 <= i < j < |rs| ensures rs[i].vport != rs[j].vport {
          assert all[i].vport != all[j].vport;
        }
      }
    }
  }

  // ----- A configuration value holding several rules -----

  predicate IsSeparator(c: char) { c == ',' || c == ';' || IsSpace(c) }

  /** `strings.FieldsFunc`: the maximal runs of other characters; `cur` is the run being read. */
  function Fields(v: string, cur: string): seq<string> {
    if v == [] then (if cur == [] then [] else [cur])
    else if IsSeparator(v[0]) then (if cur == [] then [] else [cur]) + Fields(v[1..], [])
    else Fields(v[1..], cur + [v[0]])
  }

  /** `SplitConfig`: trimming a field changes nothing, as white space separates. */
  method SplitConfig(v: string) returns (out: seq<string>)
    ensures out == Fields(v, [])
  {
    var fields := Fields(v, []);
    FieldsClean(v, []);
    out := [];
    for i := 0 to |fields|
      invariant out == fields[..i]
    {
      TrimNothing(fields[i]);
      var f := TrimSpace(fields[i]);
      if f != "" {
        out := out + [f];
      }
    }
  }

  predicate Clean(s: string) { s != [] && forall i | 0 <= i < |s| :: !IsSeparator(s[i]) }

  lemma {:induction false} FieldsClean(v: string, cur: string)
    requires cur == [] || Clean(cur)
    ensures forall i | 0 <= i < |Fields(v, cur)| :: Clean(Fields(v, cur)[i]) && NoSpace(Fields(v, cur)[i])
    decreases |v|
  {
    if v != [] {
      if IsSeparator(v[0]) { FieldsClean(v[1..], []); } else { FieldsClean(v[1..], cur + [v[0]]); }
    }
  }

  /** The rules as a text, one after the other, each followed by a separator. */
  function Render(rs: seq<Rule>, sep: char): string {
    if rs == [] then "" else RuleString(rs[0]) + [sep] + Render(rs[1..], sep)
  }

  function Strings(rs: seq<Rule>): (ss: seq<string>)
    ensures |ss| == |rs| && forall i | 0 <= i < |rs| :: ss[i] == RuleString(rs[i])
  {
    if rs == [] then [] else [RuleString(rs[0])] + Strings(rs[1..])
  }

  lemma {:induction false} FieldsOf(w: string, cur: string, sep: char, rest: string)
    requires Clean(cur + w) && IsSeparator(sep)
    ensures Fields(w + [sep] + rest, cur) == [cur + w] + Fields(rest, [])
    decreases |w|
  {
    if w == [] {
      assert cur + w == cur;
      assert (w + [sep] + rest)[1..] == rest;
    } else {
      assert cur + w == (cur + [w[0]]) + w[1..];
      assert (w + [sep] + rest)[1..] == w[1..] + [sep] + rest;
      assert !IsSeparator((cur + w)[|cur|]);
      FieldsOf(w[1..], cur + [w[0]], sep, rest);
    }
  }

  lemma RuleStringClean(r: Rule)
    ensures Clean(RuleString(r))
  {
    IpStringChars(r.targetIp);
  }

  lemma {:induction false} RenderFields(rs: seq<Rule>, sep: char)
    requires IsSeparator(sep)
    ensures Fields(Render(rs, sep), []) == Strings(rs)
    decreases |rs|
  {
    if rs != [] {
      RuleStringClean(rs[0]);
      assert [] + RuleString(rs[0]) == RuleString(rs[0]);
      FieldsOf(RuleString(rs[0]), [], sep, Render(rs[1..], sep));
      RenderFields(rs[1..], sep);
    }
  }

  /** A configuration rendered from valid rules with any separator reads back as those rules. */
  lemma ConfigRoundTrip(rs: seq<Rule>, sep: char)
    requires IsSeparator(sep) && forall i | 0 <= i < |rs| :: ValidRule(rs[i])
    ensures AllParse(Fields(Render(rs, sep), [])) && ParseAll(Fields(Render(rs, sep), [])) == rs
  {
    RenderFields(rs, sep);
    forall i | 0 <= i < |rs| ensures Parse(Strings(rs)[i]) == Some(rs[i]) { RuleRoundTrip(rs[i]); }
  }
}
