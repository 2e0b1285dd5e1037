/** The egress guard and the family guard: the rules they build, and the rewriting of a routing
    table that every rebuild repeats. */
module RoutingGuards {
  import opened Base
  import opened RoutingRules

  const EGRESS_CHUNK: nat := 48
  const FAMILY_CHUNK: nat := 64

  function Blank(): Rule { Rule(None, None, None, None, {}, BLOCK, false, false) }

  // ------------------------------------------------------------------ the egress guard's rules

  function NonEmpty(tags: seq<string>): (r: seq<string>)
    ensures forall t :: t in r <==> t in tags && t != ""
  {
    Filter((t: string) => t != "", tags)
  }

  function EgressRules(geosites: seq<string>, domains: seq<string>): seq<Rule> {
    var shape := Blank().(egressMark := true);
    var sites := NonEmpty(geosites);
    [shape.(protocols := Some(["bittorrent"]))]
      + (if sites == [] then [] else [shape.(domains := Some(sites))])
      + ChunkRules(DistinctEntries(domains), EGRESS_CHUNK, shape)
  }

  /** What the egress guard is to block: BitTorrent, a listed geosite, or a host under a listed domain. */
  predicate EgressBlocks(geosites: seq<string>, domains: seq<string>, f: Flow) {
    || f.protocol == "bittorrent"
    || (exists i :: 0 <= i < |geosites| && geosites[i] != "" && EntryMatches(geosites[i], f))
    || UnderAny(f.host, domains)
  }

  lemma SitesMatch(geosites: seq<string>, f: Flow)
    ensures AnyEntry(NonEmpty(geosites), f) <==>
            exists i :: 0 <= i < |geosites| && geosites[i] != "" && EntryMatches(geosites[i], f)
  {
    var sites := NonEmpty(geosites);
    if AnyEntry(sites, f) {
      var i :| 0 <= i < |sites| && EntryMatches(sites[i], f);
      assert sites[i] in sites;
      var j :| 0 <= j < |geosites| && geosites[j] == sites[i];
      assert geosites[j] != "" && EntryMatches(geosites[j], f);
    }
    if i :| 0 <= i < |geosites| && geosites[i] != "" && EntryMatches(geosites[i], f) {
      assert geosites[i] in sites;
    }
  }

  /** The egress rules match exactly the flows the guard is to block, however many chunks they take. */
  lemma EgressRulesBlockExactly(geosites: seq<string>, domains: seq<string>, f: Flow)
    ensures AnyMatch(EgressRules(geosites, domains), f) <==> EgressBlocks(geosites, domains, f)
  {
    hide ChunkRules, NonEmpty, UnderAny;
    var shape := Blank().(egressMark := true);
    var first := [shape.(protocols := Some(["bittorrent"]))];
    var sites := NonEmpty(geosites);
    var second := if sites == [] then [] else [shape.(domains := Some(sites))];
    var third := ChunkRules(DistinctEntries(domains), EGRESS_CHUNK, shape);
    SitesMatch(geosites, f);
    EntriesMeanSuffixes(domains, f);
    ChunksMatchTheWhole(DistinctEntries(domains), EGRESS_CHUNK, shape, f);
    AnyMatchAppend(first, second, f);
    AnyMatchAppend(first + second, third, f);
    assert AnyMatch(first, f) <==> Matches(first[0], f);
    assert sites != [] ==> (AnyMatch(second, f) <==> Matches(second[0], f));
  }

  // ------------------------------------------------------------------ the family guard's rules

  datatype Targets = Targets(domains: seq<string>, geosites: seq<string>, geoips: seq<string>)

  /** A user with family controls; no targets when the controls are off or paused. */
  datatype Row = Row(id: nat, name: string, targets: Option<Targets>)

  function Digits(n: nat): (s: string)
    ensures |s| > 0 && forall i :: 0 <= i < |s| ==> '0' <= s[i] <= '9'
  {
    if n < 10 then [('0' as int + n) as char] else Digits(n / 10) + [('0' as int + n % 10) as char]
  }

  function Email(id: nat, name: string): string { Digits(id) + "." + name }

  lemma {:induction false} DigitsDistinct(m: nat, n: nat)
    requires Digits(m) == Digits(n)
    ensures m == n
    decreases m
  {
    var s := Digits(m);
    assert m % 10 == s[|s| - 1] as int - '0' as int;
    assert n % 10 == s[|s| - 1] as int - '0' as int;
    if m >= 10 && n >= 10 {
      assert Digits(m / 10) == s[..|s| - 1] == Digits(n / 10);
      DigitsDistinct(m / 10, n / 10);
    }
  }

  /** Two users never share an address, whatever their names contain. */
  lemma EmailsAreDistinct(id: nat, name: string, id': nat, name': string)
    requires Email(id, name) == Email(id', name')
    ensures id == id' && name == name'
  {
    var e, k, k' := Email(id, name), |Digits(id)|, |Digits(id')|;
    assert e[..k] == Digits(id) && e[..k'] == Digits(id') && e[k] == '.' && e[k'] == '.';
    assert k == k';
    DigitsDistinct(id, id');
    assert name == e[k + 1..] == name';
  }

  function Tagged(prefix: string, tag: string): string {
    if StartsWith(Strip(tag), prefix) then Strip(tag) else prefix + Strip(tag)
  }

  function TagEntries(prefix: string, tags: seq<string>): seq<string> {
    if tags == [] then []
    else
      var n := |tags| - 1;
      TagEntries(prefix, tags[..n]) + (if Strip(tags[n]) == "" then [] else [Tagged(prefix, tags[n])])
  }

  /** The flow falls under one of the tags; blank ones count for nothing. */
  predicate UnderTag(prefix: string, tags: seq<string>, f: Flow) {
    exists i :: 0 <= i < |tags| && Strip(tags[i]) != "" && Tagged(prefix, tags[i]) in f.tags
  }

  /** With geosite packs only the first domains of the list are kept. */
  function KeptDomains(t: Targets): seq<string> {
    if t.geosites == [] then t.domains else t.domains[..Min(24, |t.domains|)]
  }

  function FamilyEntries(t: Targets): seq<string> {
    TagEntries("geosite:", t.geosites) + AllEntries(KeptDomains(t))
  }

  function FamilyShape(row: Row): Rule {
    Blank().(users := Some([Email(row.id, row.name)]), familyMark := true)
  }

  function RulesOf(row: Row): seq<Rule> {
    if row.targets == None || row.targets.value == Targets([], [], []) then []
    else
      var t := row.targets.value;
      var ips := TagEntries("geoip:", t.geoips);
      ChunkRules(FamilyEntries(t), FAMILY_CHUNK, FamilyShape(row))
        + (if ips == [] then [] else [FamilyShape(row).(ips := Some(ips))])
  }

  function FamilyRules(rows: seq<Row>): seq<Rule> {
    if rows == [] then [] else FamilyRules(rows[..|rows| - 1]) + RulesOf(rows[|rows| - 1])
  }

  /** What a user's controls are to block: that user's flows to a chosen geosite, domain or address range. */
  predicate RowBlocks(row: Row, f: Flow) {
    row.targets.Some? && f.user == Email(row.id, row.name) &&
    var t := row.targets.value;
    UnderTag("geosite:", t.geosites, f) || UnderAny(f.host, KeptDomains(t)) || UnderTag("geoip:", t.geoips, f)
  }

  predicate FamilyBlocks(rows: seq<Row>, f: Flow) { exists i :: 0 <= i < |rows| && RowBlocks(rows[i], f) }

  /** The domains of a user's controls that count: all of them, but only the first 24 once there are
      geosite packs. */
  lemma KeptDomainsMean(t: Targets, host: string)
    ensures UnderAny(host, KeptDomains(t)) <==>
            exists i, c :: 0 <= i < |t.domains| && (|t.geosites| > 0 ==> i < 24) && DomainOf(t.domains[i], c) && c != "" &&
                           (host == c || exists sub :: SubdomainOf(host, sub, c))
  {
    hide DomainOf, SubdomainOf, UnderAny;
    var kept := KeptDomains(t);
    UnderAnyMeans(host, kept);
    assert forall i :: 0 <= i < |kept| ==> kept[i] == t.domains[i];
    assert |kept| == if t.geosites == [] || |t.domains| <= 24 then |t.domains| else 24;
  }

  lemma UnderTagSnoc(prefix: string, tags: seq<string>, tag: string, f: Flow)
    ensures UnderTag(prefix, tags + [tag], f) <==>
            UnderTag(prefix, tags, f) || (Strip(tag) != "" && Tagged(prefix, tag) in f.tags)
  {
    var all := tags + [tag];
    if UnderTag(prefix, tags, f) {
      var i :| 0 <= i < |tags| && Strip(tags[i]) != "" && Tagged(prefix, tags[i]) in f.tags;
      assert all[i] == tags[i];
    }
    assert all[|tags|] == tag;
    if UnderTag(prefix, all, f) {
      var i :| 0 <= i < |all| && Strip(all[i]) != "" && Tagged(prefix, all[i]) in f.tags;
      if i < |tags| { assert all[i] == tags[i]; }
    }
  }

  predicate AnyTag(entries: seq<string>, f: Flow) { exists i :: 0 <= i < |entries| && entries[i] in f.tags }

  lemma AnyTagSnoc(entries: seq<string>, e: string, f: Flow)
    ensures AnyTag(entries + [e], f) <==> AnyTag(entries, f) || e in f.tags
  {
    var all := entries + [e];
    if AnyTag(entries, f) {
      var i :| 0 <= i < |entries| && entries[i] in f.tags;
      assert all[i] in f.tags;
    }
    assert all[|entries|] == e;
  }

  lemma {:induction false} TagEntriesMean(prefix: string, tags: seq<string>, f: Flow)
    requires |prefix| > 0
    ensures AnyTag(TagEntries(prefix, tags), f) <==> UnderTag(prefix, tags, f)
    ensures forall e :: e in TagEntries(prefix, tags) ==> StartsWith(e, prefix)
    decreases |tags|
  {
    if tags != [] {
      var n := |tags| - 1;
      TagEntriesMean(prefix, tags[..n], f);
      assert tags == tags[..n] + [tags[n]];
      UnderTagSnoc(prefix, tags[..n], tags[n], f);
      AnyTagSnoc(TagEntries(prefix, tags[..n]), Tagged(prefix, tags[n]), f);
      assert TagEntries(prefix, tags[..n]) + [] == TagEntries(prefix, tags[..n]);
    }
  }

  lemma GeositeEntryMatches(e: string, f: Flow)
    requires StartsWith(e, "geosite:")
    ensures EntryMatches(e, f) <==> e in f.tags
  {
    assert e[..8][0] == e[..7][0] == e[..5][0] == e[0] == "geosite:"[0];
    assert "domain:"[0] == 'd' && "full:"[0] == 'f';
  }

  lemma GeositeEntriesMean(tags: seq<string>, f: Flow)
    ensures AnyEntry(TagEntries("geosite:", tags), f) <==> UnderTag("geosite:", tags, f)
  {
    hide EntryMatches, UnderTag, TagEntries;
    TagEntriesMean("geosite:", tags, f);
    var es := TagEntries("geosite:", tags);
    forall i | 0 <= i < |es| ensures EntryMatches(es[i], f) <==> es[i] in f.tags {
      assert es[i] in es;
      GeositeEntryMatches(es[i], f);
    }
  }

  lemma RowRulesBlockExactly(row: Row, f: Flow)
    ensures AnyMatch(RulesOf(row), f) <==> RowBlocks(row, f)
  {
    hide ChunkRules, UnderAny, UnderTag, Email, AllEntries, TagEntries;
    if row.targets.Some? {
      var t, shape := row.targets.value, FamilyShape(row);
      GeositeEntriesMean(t.geosites, f);
      TagEntriesMean("geoip:", t.geoips, f);
      EntriesMeanSuffixes(KeptDomains(t), f);
      AnyEntryAppend(TagEntries("geosite:", t.geosites), AllEntries(KeptDomains(t)), f);
      ChunksMatchTheWhole(FamilyEntries(t), FAMILY_CHUNK, shape, f);
      var ips := TagEntries("geoip:", t.geoips);
      var last := if ips == [] then [] else [shape.(ips := Some(ips))];
      AnyMatchAppend(ChunkRules(FamilyEntries(t), FAMILY_CHUNK, shape), last, f);
      assert ips != [] ==> (AnyMatch(last, f) <==> Matches(last[0], f));
      if t == Targets([], [], []) { NoTargetsBlockNothing(t, f); }
    }
  }

  lemma NoTargetsBlockNothing(t: Targets, f: Flow)
    requires t == Targets([], [], [])
    ensures !UnderTag("geosite:", t.geosites, f) && !UnderAny(f.host, KeptDomains(t)) && !UnderTag("geoip:", t.geoips, f)
  {
  }

  /** The family rules match exactly the flows that some user's own controls are to block. */
  lemma {:induction false} FamilyRulesBlockExactly(rows: seq<Row>, f: Flow)
    ensures AnyMatch(FamilyRules(rows), f) <==> FamilyBlocks(rows, f)
    decreases |rows|
  {
    if rows != [] {
      hide RowBlocks, RulesOf, AnyMatch, FamilyBlocks;
      var n := |rows| - 1;
      FamilyRulesBlockExactly(rows[..n], f);
      RowRulesBlockExactly(rows[n], f);
      AnyMatchAppend(FamilyRules(rows[..n]), RulesOf(rows[n]), f);
      FamilyBlocksBack(rows, f);
    }
  }

  lemma FamilyBlocksBack(rows: seq<Row>, f: Flow)
    requires rows != []
    ensures FamilyBlocks(rows, f) <==> FamilyBlocks(rows[..|rows| - 1], f) || RowBlocks(rows[|rows| - 1], f)
  {
    hide RowBlocks;
    var n := |rows| - 1;
    if FamilyBlocks(rows[..n], f) {
      var i :| 0 <= i < n && RowBlocks(rows[..n][i], f);
      assert RowBlocks(rows[i], f);
    }
    if FamilyBlocks(rows, f) {
      var i :| 0 <= i < |rows| && RowBlocks(rows[i], f);
      if i < n { assert RowBlocks(rows[..n][i], f); }
    }
  }

  /** No one's controls touch anyone else: a flow is blocked by at most one user's row. */
  lemma ControlsArePersonal(r: Row, s: Row, f: Flow)
    requires RowBlocks(r, f) && RowBlocks(s, f)
    ensures r.id == s.id && r.name == s.name
  {
    EmailsAreDistinct(r.id, r.name, s.id, s.name);
  }

  // ------------------------------------------------------------------ rebuilding the table

  datatype Pass =
    | EgressPass(enabled: bool, geosites: seq<string>, domains: seq<string>)
    | FamilyPass(rows: seq<Row>)

  function Built(p: Pass): seq<Rule> {
    match p
    case EgressPass(enabled, geosites, domains) => if enabled then EgressRules(geosites, domains) else []
    case FamilyPass(rows) => FamilyRules(rows)
  }

  predicate MarkedBy(p: Pass, r: Rule) { if p.EgressPass? then r.egressMark else r.familyMark }

  /** The rules without those an earlier pass of the same guard left. */
  function Stripped(p: Pass, rules: seq<Rule>): (kept: seq<Rule>)
    ensures forall r :: r in kept <==> r in rules && !MarkedBy(p, r)
  {
    Filter((r: Rule) => !MarkedBy(p, r), rules)
  }

  /** A pass puts its rules in front of what it keeps. */
  function AfterPass(rules: seq<Rule>, p: Pass): seq<Rule> { Built(p) + Stripped(p, rules) }

  function AfterPasses(rules: seq<Rule>, ps: seq<Pass>): seq<Rule> {
    if ps == [] then rules else AfterPass(AfterPasses(rules, ps[..|ps| - 1]), ps[|ps| - 1])
  }

  /** What the last pass of each guard built. */
  function Current(ps: seq<Pass>, egress: bool): seq<Rule> {
    if ps == [] then []
    else if ps[|ps| - 1].EgressPass? == egress then Built(ps[|ps| - 1])
    else Current(ps[..|ps| - 1], egress)
  }

  /** The operator's rules: those that were there first and that no pass has stripped. */
  function Operator(rules: seq<Rule>, ps: seq<Pass>): seq<Rule> {
    if ps == [] then rules else Stripped(ps[|ps| - 1], Operator(rules, ps[..|ps| - 1]))
  }

  function Guards(ps: seq<Pass>): seq<Rule> {
    if ps == [] then [] else Built(ps[|ps| - 1]) + Stripped(ps[|ps| - 1], Guards(ps[..|ps| - 1]))
  }

  lemma StrippedAppend(p: Pass, a: seq<Rule>, b: seq<Rule>)
    ensures Stripped(p, a + b) == Stripped(p, a) + Stripped(p, b)
  {
    FilterAppend((r: Rule) => !MarkedBy(p, r), a, b);
  }

  lemma StrippedNone(p: Pass, a: seq<Rule>)
    ensures (forall r :: r in a ==> MarkedBy(p, r)) ==> Stripped(p, a) == []
    ensures (forall r :: r in a ==> !MarkedBy(p, r)) ==> Stripped(p, a) == a
  {
    if forall r :: r in a ==> MarkedBy(p, r) { FilterNone((r: Rule) => !MarkedBy(p, r), a); }
    if forall r :: r in a ==> !MarkedBy(p, r) { FilterAll((r: Rule) => !MarkedBy(p, r), a); }
  }

  lemma {:induction false} FamilyMarks(rows: seq<Row>)
    ensures forall r :: r in FamilyRules(rows) ==> r.familyMark && !r.egressMark && r.outbound == BLOCK
    decreases |rows|
  {
    if rows != [] {
      var row := rows[|rows| - 1];
      FamilyMarks(rows[..|rows| - 1]);
      if row.targets.Some? { ChunksHaveTheShape(FamilyEntries(row.targets.value), FAMILY_CHUNK, FamilyShape(row)); }
    }
  }

  /** A pass builds blocking rules that carry its own mark and not the other guard's. */
  lemma BuiltMarks(p: Pass)
    ensures forall r :: r in Built(p) ==>
              r.outbound == BLOCK && r.egressMark == p.EgressPass? && r.familyMark == p.FamilyPass?
  {
    if p.FamilyPass? { FamilyMarks(p.rows); }
    else { ChunksHaveTheShape(DistinctEntries(p.domains), EGRESS_CHUNK, Blank().(egressMark := true)); }
  }

  lemma {:induction false} CurrentMarks(ps: seq<Pass>, egress: bool)
    ensures forall r :: r in Current(ps, egress) ==>
              r.outbound == BLOCK && r.egressMark == egress && r.familyMark == !egress
    decreases |ps|
  {
    if ps != [] {
      BuiltMarks(ps[|ps| - 1]);
      CurrentMarks(ps[..|ps| - 1], egress);
    }
  }

  /** The guards' part of the table is the two current rule lists, the newer one first: rules of
      earlier passes never accumulate. */
  lemma {:induction false} GuardsAreCurrent(ps: seq<Pass>)
    ensures Guards(ps) == Current(ps, true) + Current(ps, false) || Guards(ps) == Current(ps, false) + Current(ps, true)
    decreases |ps|
  {
    if ps != [] {
      hide Built, Stripped;
      var before, p := ps[..|ps| - 1], ps[|ps| - 1];
      var own, other := Current(before, p.EgressPass?), Current(before, !p.EgressPass?);
      GuardsAreCurrent(before);
      CurrentMarks(before, true);
      CurrentMarks(before, false);
      StrippedAppend(p, own, other);
      StrippedAppend(p, other, own);
      StrippedNone(p, own);
      StrippedNone(p, other);
      assert other + [] == other && [] + other == other;
    }
  }

  /** After any passes in any order the table is the current guard rules followed by the
      operator's rules in their own order. */
  lemma {:induction false} TableIsGuardsThenOperator(rules: seq<Rule>, ps: seq<Pass>)
    ensures AfterPasses(rules, ps) == Guards(ps) + Operator(rules, ps)
    decreases |ps|
  {
    if ps != [] {
      hide Built, Stripped;
      var before, p := ps[..|ps| - 1], ps[|ps| - 1];
      TableIsGuardsThenOperator(rules, before);
      StrippedAppend(p, Guards(before), Operator(rules, before));
    }
  }

  /** Rebuilding preserves meaning: whatever passes ran before, a flow that a current guard rule
      matches is blocked, and every other flow is decided by the operator's rules alone. */
  lemma RebuildsPreserveMeaning(rules: seq<Rule>, ps: seq<Pass>, f: Flow)
    ensures Decide(AfterPasses(rules, ps), f)
         == if AnyMatch(Current(ps, true), f) || AnyMatch(Current(ps, false), f) then Some(BLOCK)
            else Decide(Operator(rules, ps), f)
    ensures |AfterPasses(rules, ps)| == |Current(ps, true)| + |Current(ps, false)| + |Operator(rules, ps)|
    ensures |Operator(rules, ps)| <= |rules|
  {
    TableIsGuardsThenOperator(rules, ps);
    GuardsAreCurrent(ps);
    CurrentMarks(ps, true);
    CurrentMarks(ps, false);
    AnyMatchAppend(Current(ps, true), Current(ps, false), f);
    AnyMatchAppend(Current(ps, false), Current(ps, true), f);
    DecideAppend(Guards(ps), Operator(rules, ps), f);
    AllBlock(Guards(ps), f);
    OperatorShrinks(rules, ps);
  }

  lemma {:induction false} OperatorShrinks(rules: seq<Rule>, ps: seq<Pass>)
    ensures |Operator(rules, ps)| <= |rules|
    ensures (forall r :: r in rules ==> !r.egressMark && !r.familyMark) ==> Operator(rules, ps) == rules
    decreases |ps|
  {
    if ps != [] {
      OperatorShrinks(rules, ps[..|ps| - 1]);
      StrippedNone(ps[|ps| - 1], rules);
    }
  }

  /** The whole promise, for a table of unmarked rules: after any history that ends with a pass of
      each guard, exactly the flows the guards are to block are blocked by them, and all others go
      where the operator sent them. */
  lemma GuardsBlockExactly(rules: seq<Rule>, ps: seq<Pass>, e: Pass, m: Pass, f: Flow)
    requires e.EgressPass? && m.FamilyPass? && forall r :: r in rules ==> !r.egressMark && !r.familyMark
    ensures var blocked := (e.enabled && EgressBlocks(e.geosites, e.domains, f)) || FamilyBlocks(m.rows, f);
            && Decide(AfterPasses(rules, ps + [e, m]), f) == (if blocked then Some("BLOCK") else Decide(rules, f))
            && Decide(AfterPasses(rules, ps + [m, e]), f) == (if blocked then Some("BLOCK") else Decide(rules, f))
  {
    hide EgressBlocks, FamilyBlocks, EgressRules, FamilyRules;
    EgressRulesBlockExactly(e.geosites, e.domains, f);
    FamilyRulesBlockExactly(m.rows, f);
    LastPasses(ps, e, m);
    LastPasses(ps, m, e);
    RebuildsPreserveMeaning(rules, ps + [e, m], f);
    RebuildsPreserveMeaning(rules, ps + [m, e], f);
    OperatorShrinks(rules, ps + [e, m]);
    OperatorShrinks(rules, ps + [m, e]);
    assert !AnyMatch([], f);
  }

  lemma LastPasses(ps: seq<Pass>, p: Pass, q: Pass)
    requires p.EgressPass? != q.EgressPass?
    ensures Current(ps + [p, q], p.EgressPass?) == Built(p) && Current(ps + [p, q], q.EgressPass?) == Built(q)
  {
    hide Built;
    assert (ps + [p, q])[..|ps| + 1] == ps + [p];
  }

  // ------------------------------------------------------------------ outbounds and sniffing

  datatype Outbound = Outbound(tag: string, protocol: string)

  /** A blackhole is added unless some outbound already has the tag in any case. */
  function WithBlackhole(outbounds: seq<Outbound>): seq<Outbound> {
    if exists i :: 0 <= i < |outbounds| && Upper(outbounds[i].tag) == BLOCK then outbounds
    else outbounds + [Outbound(BLOCK, "blackhole")]
  }

  predicate HasTag(outbounds: seq<Outbound>, tag: string) { exists i :: 0 <= i < |outbounds| && outbounds[i].tag == tag }

  predicate SpelledOtherwise(outbounds: seq<Outbound>) {
    exists i :: 0 <= i < |outbounds| && outbounds[i].tag != BLOCK && Upper(outbounds[i].tag) == BLOCK
  }

  lemma BlackholeIsExact(outbounds: seq<Outbound>)
    ensures HasTag(WithBlackhole(outbounds), BLOCK) <==> HasTag(outbounds, BLOCK) || !SpelledOtherwise(outbounds)
    ensures outbounds != [] ==> WithBlackhole(outbounds)[0] == outbounds[0]
    ensures WithBlackhole(WithBlackhole(outbounds)) == WithBlackhole(outbounds)
    ensures WithBlackhole(outbounds) == outbounds || WithBlackhole(outbounds) == outbounds + [Outbound("BLOCK", "blackhole")]
  {
    assert Upper(BLOCK) == BLOCK;
    var all := outbounds + [Outbound(BLOCK, "blackhole")];
    assert all[|outbounds|].tag == BLOCK;
    if HasTag(outbounds, BLOCK) {
      var i :| 0 <= i < |outbounds| && outbounds[i].tag == BLOCK;
      assert Upper(outbounds[i].tag) == BLOCK;
    }
  }

  /** Only a pass of the egress guard that is switched on looks after the outbound. */
  function OutboundsAfter(outbounds: Option<seq<Outbound>>, p: Pass): Option<seq<Outbound>> {
    if p.EgressPass? && p.enabled && outbounds.Some? then Some(WithBlackhole(outbounds.value)) else outbounds
  }

  function OutboundsAfterPasses(outbounds: Option<seq<Outbound>>, ps: seq<Pass>): Option<seq<Outbound>> {
    if ps == [] then outbounds else OutboundsAfter(OutboundsAfterPasses(outbounds, ps[..|ps| - 1]), ps[|ps| - 1])
  }

  predicate EgressWasOn(ps: seq<Pass>) { exists i :: 0 <= i < |ps| && ps[i].EgressPass? && ps[i].enabled }

  lemma {:induction false} OutboundsSettle(outbounds: Option<seq<Outbound>>, ps: seq<Pass>)
    ensures OutboundsAfterPasses(outbounds, ps)
         == if outbounds.Some? && EgressWasOn(ps) then Some(WithBlackhole(outbounds.value)) else outbounds
    decreases |ps|
  {
    if ps != [] {
      var n := |ps| - 1;
      OutboundsSettle(outbounds, ps[..n]);
      assert EgressWasOn(ps) <==> EgressWasOn(ps[..n]) || (ps[n].EgressPass? && ps[n].enabled) by {
        if EgressWasOn(ps[..n]) {
          var i :| 0 <= i < n && ps[..n][i].EgressPass? && ps[..n][i].enabled;
          assert ps[i].EgressPass? && ps[i].enabled;
        }
        if EgressWasOn(ps) {
          var i :| 0 <= i < |ps| && ps[i].EgressPass? && ps[i].enabled;
          if i < n { assert ps[..n][i].EgressPass? && ps[..n][i].enabled; }
        }
      }
      if outbounds.Some? { BlackholeIsExact(outbounds.value); }
    }
  }

  /** Some guard rule names an outbound that the configuration does not have. */
  predicate Dangling(rules: seq<Rule>, outbounds: Option<seq<Outbound>>) {
    exists i :: 0 <= i < |rules| && (rules[i].egressMark || rules[i].familyMark) &&
                !(outbounds.Some? && HasTag(outbounds.value, rules[i].outbound))
  }

  /** Exactly when a guard rule is left without a target, after any passes over a table of the
      operator's own rules: there are guard rules, and the outbounds are missing, or they have no
      outbound of that exact name to begin with and either one is spelled in another case or the
      egress guard has never been on. */
  lemma GuardRulesDangleIff(rules: seq<Rule>, outbounds: Option<seq<Outbound>>, ps: seq<Pass>)
    requires forall r :: r in rules ==> !r.egressMark && !r.familyMark
    ensures Dangling(AfterPasses(rules, ps), OutboundsAfterPasses(outbounds, ps)) <==>
            && (Current(ps, true) != [] || Current(ps, false) != [])
            && (outbounds == None ||
                (!HasTag(outbounds.value, BLOCK) && (SpelledOtherwise(outbounds.value) || !EgressWasOn(ps))))
  {
    var table, outs := AfterPasses(rules, ps), OutboundsAfterPasses(outbounds, ps);
    TableIsGuardsThenOperator(rules, ps);
    GuardsAreCurrent(ps);
    OperatorShrinks(rules, ps);
    OutboundsSettle(outbounds, ps);
    if outbounds.Some? { BlackholeIsExact(outbounds.value); }
    hide AfterPasses, OutboundsAfterPasses, WithBlackhole, SpelledOtherwise, EgressWasOn, HasTag, Operator, Guards, Current;
    DanglingWhenUntargeted(Guards(ps), rules, outs, ps);
  }

  lemma DanglingWhenUntargeted(guards: seq<Rule>, rules: seq<Rule>, outs: Option<seq<Outbound>>, ps: seq<Pass>)
    requires guards == Current(ps, true) + Current(ps, false) || guards == Current(ps, false) + Current(ps, true)
    requires forall r :: r in rules ==> !r.egressMark && !r.familyMark
    ensures Dangling(guards + rules, outs) <==> guards != [] && !(outs.Some? && HasTag(outs.value, BLOCK))
  {
    CurrentMarks(ps, true);
    CurrentMarks(ps, false);
    forall i | 0 <= i < |guards|
      ensures guards[i].outbound == BLOCK && (guards[i].egressMark || guards[i].familyMark)
    {
      assert guards[i] in guards;
    }
    var table := guards + rules;
    if guards != [] { assert table[0] == guards[0]; }
    forall i | |guards| <= i < |table| ensures !table[i].egressMark && !table[i].familyMark {
      assert table[i] == rules[i - |guards|];
    }
  }

  /** The input at which it shows: the egress guard off, a user with controls, and no outbound of
      that name. The family rules then point nowhere. */
  lemma FamilyRulesDangleWithEgressOff(row: Row, outbounds: seq<Outbound>)
    requires RulesOf(row) != [] && !HasTag(outbounds, BLOCK)
    ensures var ps := [EgressPass(false, [], []), FamilyPass([row])];
            Dangling(AfterPasses([], ps), OutboundsAfterPasses(Some(outbounds), ps))
  {
    hide AfterPasses, OutboundsAfterPasses, Dangling, SpelledOtherwise, EgressRules, RulesOf;
    var e, m := EgressPass(false, [], []), FamilyPass([row]);
    GuardRulesDangleIff([], Some(outbounds), [e, m]);
    assert [e, m] == [] + [e, m];
    LastPasses([], e, m);
    assert [row][..0] == [];
    assert FamilyRules([row]) == [] + RulesOf(row) == RulesOf(row);
  }

  datatype Sniffing = Sniffing(enabled: bool, destOverride: seq<string>, routeOnly: Option<bool>)

  datatype Inbound = Inbound(protocol: string, sniffing: Option<Sniffing>)

  const SNIFFED: seq<string> := ["http", "tls", "quic"]

  predicate Sniffable(s: string) { s == "http" || s == "tls" || s == "quic" || s == "fakedns" }

  function CleanOverride(dest: seq<string>): seq<string> {
    if dest == [] then []
    else
      var x := Lower(Strip(dest[|dest| - 1]));
      CleanOverride(dest[..|dest| - 1]) + (if Sniffable(x) then [x] else [])
  }

  function WithSniffing(i: Inbound): Inbound {
    if Lower(i.protocol) == "wireguard" then i
    else
      var s := if i.sniffing.Some? then i.sniffing.value else Sniffing(false, [], None);
      var dest := CleanOverride(s.destOverride);
      i.(sniffing := Some(Sniffing(true, if dest == [] then SNIFFED else dest,
                                   if s.routeOnly.Some? then s.routeOnly else Some(true))))
  }

  lemma SniffableIsClean(s: string)
    requires Sniffable(s)
    ensures Lower(Strip(s)) == s
  {
    assert StripLeft(s) == s && StripRight(s) == s;
    assert Lower(s) == s;
  }

  lemma {:induction false} CleanOverrideCleans(dest: seq<string>)
    ensures forall x :: x in CleanOverride(dest) ==> Sniffable(x)
    ensures (forall x :: x in dest ==> Sniffable(x)) ==> CleanOverride(dest) == dest
    decreases |dest|
  {
    if dest != [] {
      var n := |dest| - 1;
      CleanOverrideCleans(dest[..n]);
      if forall x :: x in dest ==> Sniffable(x) {
        assert Sniffable(dest[n]);
        SniffableIsClean(dest[n]);
        assert dest == dest[..n] + [dest[n]];
      }
    }
  }

  /** Sniffing is on everywhere but on WireGuard, only protocols Xray accepts are overridden, the
      operator's choice of route-only is kept, and doing it again changes nothing. */
  lemma SniffingSettles(i: Inbound)
    ensures var j := WithSniffing(i);
            && WithSniffing(j) == j
            && (Lower(i.protocol) != "wireguard" ==>
                  && j.sniffing.Some? && j.sniffing.value.enabled && j.sniffing.value.destOverride != []
                  && (forall x :: x in j.sniffing.value.destOverride ==> Sniffable(x))
                  && (i.sniffing.Some? && i.sniffing.value.routeOnly.Some? ==>
                        j.sniffing.value.routeOnly == i.sniffing.value.routeOnly)
                  && (i.sniffing == None ==>
                        j.sniffing.value.destOverride == ["http", "tls", "quic"] && j.sniffing.value.routeOnly == Some(true)))
            && (Lower(i.protocol) == "wireguard" ==> j == i)
  {
    hide CleanOverride, Lower, Sniffable;
    var dest := if i.sniffing.Some? then i.sniffing.value.destOverride else [];
    CleanOverrideCleans(dest);
    CleanOverrideCleans(CleanOverride(dest));
    CleanOverrideCleans(SNIFFED);
    SniffedIsClean();
  }

  lemma SniffedIsClean()
    ensures (forall x :: x in SNIFFED ==> Sniffable(x)) && CleanOverride([]) == []
  {
  }

  // ------------------------------------------------------------------ the loops and the config

  method BuildEgressGuardRules(geosites: seq<string>, domains: seq<string>) returns (rules: seq<Rule>)
    ensures rules == EgressRules(geosites, domains)
  {
    var shape := Blank().(egressMark := true);
    rules := [shape.(protocols := Some(["bittorrent"]))];
    var sites := NonEmpty(geosites);
    if sites != [] { rules := rules + [shape.(domains := Some(sites))]; }
    var entries := BuildDistinctEntries(domains);
    var chunks := BuildChunkRules(entries, EGRESS_CHUNK, shape);
    rules := rules + chunks;
  }

  method BuildTagEntries(prefix: string, tags: seq<string>) returns (out: seq<string>)
    ensures out == TagEntries(prefix, tags)
  {
    out := [];
    for i := 0 to |tags|
      invariant out == TagEntries(prefix, tags[..i])
    {
      assert tags[..i + 1][..i] == tags[..i];
      var g := Strip(tags[i]);
      if g == "" { continue; }
      out := out + [if StartsWith(g, prefix) then g else prefix + g];
    }
    assert tags[..|tags|] == tags;
  }

  method BuildRulesOf(row: Row) returns (rules: seq<Rule>)
    ensures rules == RulesOf(row)
  {
    if row.targets == None { return []; }
    var t := row.targets.value;
    if t.domains == [] && t.geosites == [] && t.geoips == [] { return []; }
    var entries := BuildTagEntries("geosite:", t.geosites);
    var extra := BuildAllEntries(if t.geosites == [] then t.domains else t.domains[..Min(24, |t.domains|)]);
    rules := BuildChunkRules(entries + extra, FAMILY_CHUNK, FamilyShape(row));
    var ips := BuildTagEntries("geoip:", t.geoips);
    if ips != [] { rules := rules + [FamilyShape(row).(ips := Some(ips))]; }
    assert rules + [] == rules;
  }

  method BuildFamilyGuardRules(rows: seq<Row>) returns (rules: seq<Rule>)
    ensures rules == FamilyRules(rows)
  {
    rules := [];
    for i := 0 to |rows|
      invariant rules == FamilyRules(rows[..i])
    {
      assert rows[..i + 1][..i] == rows[..i];
      var own := BuildRulesOf(rows[i]);
      rules := rules + own;
    }
    assert rows[..|rows|] == rows;
  }

  datatype Routing = Routing(domainStrategy: string, rules: Option<seq<Rule>>)

  class XrayConfig {
    var routing: Option<Routing>
    var outbounds: Option<seq<Outbound>>
    var inbounds: Option<seq<Inbound>>

    constructor (routing: Option<Routing>, outbounds: Option<seq<Outbound>>, inbounds: Option<seq<Inbound>>)
      ensures this.routing == routing && this.outbounds == outbounds && this.inbounds == inbounds
    {
      this.routing, this.outbounds, this.inbounds := routing, outbounds, inbounds;
    }

    function Rules(): seq<Rule>
      reads this
    {
      if routing == None || routing.value.rules == None then [] else routing.value.rules.value
    }

    function Strategy(): string
      reads this
    {
      if routing == None then "AsIs" else routing.value.domainStrategy
    }

    method EnsureInboundSniffing()
      modifies this`inbounds
      ensures inbounds == if old(inbounds) == None then None else Some(Map(WithSniffing, old(inbounds).value))
    {
      if inbounds == None { return; }
      var done: seq<Inbound> := [];
      for k := 0 to |inbounds.value|
        invariant |done| == k && forall i :: 0 <= i < k ==> done[i] == WithSniffing(inbounds.value[i])
      {
        done := done + [WithSniffing(inbounds.value[k])];
      }
      assert done == Map(WithSniffing, inbounds.value);
      inbounds := Some(done);
    }

    /** A pass of the egress guard; switched off, it only removes its own rules. */
    method ApplyEgressGuardRouting(enabled: bool, geosites: seq<string>, domains: seq<string>)
      modifies this
      ensures routing.Some? && Rules() == AfterPass(old(Rules()), EgressPass(enabled, geosites, domains))
      ensures Strategy() == old(Strategy())
      ensures outbounds == OutboundsAfter(old(outbounds), EgressPass(enabled, geosites, domains))
      ensures inbounds == if enabled && old(inbounds).Some? then Some(Map(WithSniffing, old(inbounds).value)) else old(inbounds)
    {
      var r := if routing == None then Routing("AsIs", Some([])) else routing.value;
      var existing := if r.rules == None then [] else r.rules.value;
      var kept := Stripped(EgressPass(enabled, geosites, domains), existing);
      if !enabled {
        routing := Some(r.(rules := Some(kept)));
        assert [] + kept == kept;
        return;
      }
      if outbounds.Some? { outbounds := Some(WithBlackhole(outbounds.value)); }
      EnsureInboundSniffing();
      var built := BuildEgressGuardRules(geosites, domains);
      routing := Some(r.(rules := Some(built + kept)));
    }

    method ApplyFamilyGuardServerRouting(rows: seq<Row>)
      modifies this`routing
      ensures routing.Some? && Rules() == AfterPass(old(Rules()), FamilyPass(rows))
      ensures Strategy() == old(Strategy())
    {
      var r := if routing == None then Routing("AsIs", Some([])) else routing.value;
      var existing := if r.rules == None then [] else r.rules.value;
      var built := BuildFamilyGuardRules(rows);
      routing := Some(r.(rules := Some(built + Stripped(FamilyPass(rows), existing))));
    }
  }
}
