/** Xray routing rules as the two guards write them, and what a list of rules means to a flow. */
module RoutingRules {
  import opened Base

  // ------------------------------------------------------------------ flows and rules

  /** A connection: the user it belongs to, the sniffed protocol, the host it names, and the tags
      (geosite, geoip, expressions, anything else a rule may name) that it falls under. */
  datatype Flow = Flow(user: string, protocol: string, host: string, tags: set<string>)

  /** A field that is absent matches everything; a list matches when one entry does. */
  datatype Rule = Rule(
    users: Option<seq<string>>, protocols: Option<seq<string>>, domains: Option<seq<string>>, ips: Option<seq<string>>,
    needs: set<string>, outbound: string, egressMark: bool, familyMark: bool)

  const BLOCK: string := "BLOCK"

  predicate StartsWith(s: string, prefix: string) { |prefix| <= |s| && s[..|prefix|] == prefix }

  predicate EndsWith(s: string, suffix: string) { |suffix| <= |s| && s[|s| - |suffix|..] == suffix }

  /** The host is the domain or one of its subdomains. */
  predicate Under(host: string, domain: string) { host == domain || EndsWith(host, "." + domain) }

  predicate EntryMatches(entry: string, f: Flow) {
    if StartsWith(entry, "domain:") then Under(f.host, entry[7..])
    else if StartsWith(entry, "full:") then f.host == entry[5..]
    else entry in f.tags
  }

  predicate AnyEntry(entries: seq<string>, f: Flow) { exists i :: 0 <= i < |entries| && EntryMatches(entries[i], f) }

  predicate Matches(r: Rule, f: Flow) {
    && (r.users.Some? ==> f.user in r.users.value)
    && (r.protocols.Some? ==> f.protocol in r.protocols.value)
    && (r.domains.Some? ==> AnyEntry(r.domains.value, f))
    && (r.ips.Some? ==> exists i :: 0 <= i < |r.ips.value| && r.ips.value[i] in f.tags)
    && r.needs <= f.tags
  }

  predicate AnyMatch(rules: seq<Rule>, f: Flow) { exists i :: 0 <= i < |rules| && Matches(rules[i], f) }

  /** The outbound of the first rule that matches, if any does. */
  function Decide(rules: seq<Rule>, f: Flow): Option<string> {
    if rules == [] then None
    else if Matches(rules[0], f) then Some(rules[0].outbound)
    else Decide(rules[1..], f)
  }

  lemma {:induction false} DecideAppend(a: seq<Rule>, b: seq<Rule>, f: Flow)
    ensures Decide(a + b, f) == if AnyMatch(a, f) then Decide(a, f) else Decide(b, f)
  {
    if a == [] {
      assert a + b == b;
    } else {
      assert (a + b)[1..] == a[1..] + b;
      assert AnyMatch(a, f) <==> Matches(a[0], f) || AnyMatch(a[1..], f) by {
        forall i | 1 <= i < |a| ensures a[i] == a[1..][i - 1] {}
        if Matches(a[0], f) { assert AnyMatch(a, f); }
        if AnyMatch(a[1..], f) {
          var i :| 0 <= i < |a[1..]| && Matches(a[1..][i], f);
          assert Matches(a[i + 1], f);
        }
      }
      DecideAppend(a[1..], b, f);
    }
  }

  lemma {:induction false} AllBlock(rules: seq<Rule>, f: Flow)
    requires forall i :: 0 <= i < |rules| ==> rules[i].outbound == BLOCK
    ensures Decide(rules, f) == if AnyMatch(rules, f) then Some(BLOCK) else None
  {
    if rules != [] {
      AllBlock(rules[1..], f);
      assert AnyMatch(rules[1..], f) ==> AnyMatch(rules, f) by {
        if AnyMatch(rules[1..], f) {
          var i :| 0 <= i < |rules[1..]| && Matches(rules[1..][i], f);
          assert Matches(rules[i + 1], f);
        }
      }
      if AnyMatch(rules, f) && !Matches(rules[0], f) {
        var i :| 0 <= i < |rules| && Matches(rules[i], f);
        assert Matches(rules[1..][i - 1], f);
      }
    }
  }

  lemma AnyMatchAppend(a: seq<Rule>, b: seq<Rule>, f: Flow)
    ensures AnyMatch(a + b, f) <==> AnyMatch(a, f) || AnyMatch(b, f)
  {
    if AnyMatch(a, f) {
      var i :| 0 <= i < |a| && Matches(a[i], f);
      assert Matches((a + b)[i], f);
    }
    if AnyMatch(b, f) {
      var i :| 0 <= i < |b| && Matches(b[i], f);
      assert Matches((a + b)[|a| + i], f);
    }
  }

  lemma AnyEntryAppend(a: seq<string>, b: seq<string>, f: Flow)
    ensures AnyEntry(a + b, f) <==> AnyEntry(a, f) || AnyEntry(b, f)
  {
    if AnyEntry(a, f) {
      var i :| 0 <= i < |a| && EntryMatches(a[i], f);
      assert EntryMatches((a + b)[i], f);
    }
    if AnyEntry(b, f) {
      var i :| 0 <= i < |b| && EntryMatches(b[i], f);
      assert EntryMatches((a + b)[|a| + i], f);
    }
  }

  // ------------------------------------------------------------------ domain entries

  function LowerChar(c: char): char { if 'A' <= c <= 'Z' then c + 32 as char else c }

  function Lower(s: string): string { Map(LowerChar, s) }

  function UpperChar(c: char): char { if 'a' <= c <= 'z' then c - 32 as char else c }

  function Upper(s: string): string { Map(UpperChar, s) }

  function WithoutLeadingDots(s: string): string {
    if s != [] && s[0] == '.' then WithoutLeadingDots(s[1..]) else s
  }

  function CleanDomain(d: string): string { WithoutLeadingDots(Lower(Strip(d))) }

  function Pair(d: string): seq<string> { ["domain:" + d, "full:" + d] }

  /** The entries of a list of domains, each domain once. */
  function DistinctEntries(domains: seq<string>): seq<string> {
    if domains == [] then []
    else
      var n := |domains| - 1;
      var d := CleanDomain(domains[n]);
      DistinctEntries(domains[..n]) + (if d == "" || Listed(domains[..n], d) then [] else Pair(d))
  }

  /** The entries of a list of domains, repeated as the list repeats them. */
  function AllEntries(domains: seq<string>): seq<string> {
    if domains == [] then []
    else
      var n := |domains| - 1;
      var d := CleanDomain(domains[n]);
      AllEntries(domains[..n]) + (if d == "" then [] else Pair(d))
  }

  predicate Listed(domains: seq<string>, d: string) { exists i :: 0 <= i < |domains| && CleanDomain(domains[i]) == d }

  /** The host belongs to a domain of the list; blank entries of the list count for nothing. */
  predicate UnderAny(host: string, domains: seq<string>) {
    exists i :: 0 <= i < |domains| && CleanDomain(domains[i]) != "" && Under(host, CleanDomain(domains[i]))
  }

  lemma UnderAnySnoc(host: string, domains: seq<string>, d: string)
    ensures UnderAny(host, domains + [d]) <==>
            UnderAny(host, domains) || (CleanDomain(d) != "" && Under(host, CleanDomain(d)))
  {
    var all := domains + [d];
    if UnderAny(host, domains) {
      var i :| 0 <= i < |domains| && CleanDomain(domains[i]) != "" && Under(host, CleanDomain(domains[i]));
      assert all[i] == domains[i];
    }
    assert all[|domains|] == d;
    if UnderAny(host, all) {
      var i :| 0 <= i < |all| && CleanDomain(all[i]) != "" && Under(host, CleanDomain(all[i]));
      if i < |domains| { assert all[i] == domains[i]; }
    }
  }

  lemma PairMatches(d: string, f: Flow)
    ensures AnyEntry(Pair(d), f) <==> Under(f.host, d)
  {
    assert Pair(d)[0][7..] == d && StartsWith(Pair(d)[0], "domain:");
    assert Pair(d)[1][5..] == d && StartsWith(Pair(d)[1], "full:") && Pair(d)[1][0] == 'f';
    assert EntryMatches(Pair(d)[0], f) <==> Under(f.host, d);
    assert EntryMatches(Pair(d)[1], f) <==> f.host == d;
  }

  /** Both ways of writing the entries match exactly the hosts under the listed domains. */
  lemma {:induction false} EntriesMeanSuffixes(domains: seq<string>, f: Flow)
    ensures AnyEntry(DistinctEntries(domains), f) <==> UnderAny(f.host, domains)
    ensures AnyEntry(AllEntries(domains), f) <==> UnderAny(f.host, domains)
    decreases |domains|
  {
    if domains != [] {
      var n := |domains| - 1;
      var d := CleanDomain(domains[n]);
      EntriesMeanSuffixes(domains[..n], f);
      assert domains == domains[..n] + [domains[n]];
      UnderAnySnoc(f.host, domains[..n], domains[n]);
      PairMatches(d, f);
      AnyEntryAppend(DistinctEntries(domains[..n]), Pair(d), f);
      AnyEntryAppend(AllEntries(domains[..n]), Pair(d), f);
      assert DistinctEntries(domains[..n]) + [] == DistinctEntries(domains[..n]);
      assert AllEntries(domains[..n]) + [] == AllEntries(domains[..n]);
    }
  }

  // What a listed domain stands for, said of its text alone.

  predicate IsLowerOf(x: char, y: char) { if 'A' <= x <= 'Z' then y as int == x as int + 32 else y == x }

  /** `c` is `t` without its `n` leading dots and in lower case. */
  ghost predicate PlainFrom(t: string, n: nat, c: string) {
    && n <= |t| && (forall i :: 0 <= i < n ==> t[i] == '.') && (n < |t| ==> t[n] != '.')
    && |c| == |t| - n && forall i :: 0 <= i < |c| ==> IsLowerOf(t[n + i], c[i])
  }

  /** `c` is the domain that the entry `d` of a list means. */
  ghost predicate DomainOf(d: string, c: string) { exists t, n :: TrimsTo(d, t) && PlainFrom(t, n, c) }

  ghost predicate SubdomainOf(host: string, sub: string, c: string) { host == sub + "." + c }

  lemma {:induction false} DotsAt(s: string) returns (n: nat)
    ensures n <= |s| && WithoutLeadingDots(s) == s[n..]
    ensures (forall i :: 0 <= i < n ==> s[i] == '.') && (n < |s| ==> s[n] != '.')
  {
    n := 0;
    if s != [] && s[0] == '.' {
      n := DotsAt(s[1..]);
      n := n + 1;
    }
  }

  lemma PlainIsUnique(t: string, n: nat, c: string, m: nat, e: string)
    requires PlainFrom(t, n, c) && PlainFrom(t, m, e)
    ensures c == e
  {
    assert n == m;
    forall i | 0 <= i < |c| ensures c[i] == e[i] { assert IsLowerOf(t[n + i], c[i]) && IsLowerOf(t[n + i], e[i]); }
  }

  lemma CleanDomainIff(d: string, c: string)
    ensures DomainOf(d, c) <==> c == CleanDomain(d)
  {
    hide TrimsTo, Strip, WithoutLeadingDots;
    var s := Strip(d);
    TrimIsStrip(d, s);
    var n := DotsAt(Lower(s));
    assert PlainFrom(s, n, CleanDomain(d));
    if DomainOf(d, c) {
      var t, m :| TrimsTo(d, t) && PlainFrom(t, m, c);
      TrimIsStrip(d, t);
      PlainIsUnique(s, n, CleanDomain(d), m, c);
    }
  }

  lemma UnderIff(host: string, c: string)
    ensures Under(host, c) <==> host == c || exists sub :: SubdomainOf(host, sub, c)
  {
    if EndsWith(host, "." + c) {
      assert SubdomainOf(host, host[..|host| - |c| - 1], c);
    }
    if sub :| SubdomainOf(host, sub, c) {
      assert host == sub + ("." + c);
      assert host[|host| - |c| - 1..] == "." + c;
    }
  }

  /** A host is under a list of domains exactly when it is, or is a subdomain of, an entry trimmed of
      blanks, without its leading dots and in lower case, that is not empty then. */
  lemma UnderAnyMeans(host: string, domains: seq<string>)
    ensures UnderAny(host, domains) <==>
            exists i, c :: 0 <= i < |domains| && DomainOf(domains[i], c) && c != "" &&
                           (host == c || exists sub :: SubdomainOf(host, sub, c))
  {
    hide DomainOf, SubdomainOf, CleanDomain, Under;
    if UnderAny(host, domains) {
      var i :| 0 <= i < |domains| && CleanDomain(domains[i]) != "" && Under(host, CleanDomain(domains[i]));
      CleanDomainIff(domains[i], CleanDomain(domains[i]));
      UnderIff(host, CleanDomain(domains[i]));
    }
    if i, c :| 0 <= i < |domains| && DomainOf(domains[i], c) && c != "" &&
               (host == c || exists sub :: SubdomainOf(host, sub, c)) {
      CleanDomainIff(domains[i], c);
      UnderIff(host, c);
    }
  }

  // ------------------------------------------------------------------ chunks

  /** The entries cut into rules of at most `size` entries each; `shape` gives the other fields. */
  function ChunkRules(entries: seq<string>, size: nat, shape: Rule): seq<Rule>
    requires size > 0
    decreases |entries|
  {
    if |entries| == 0 then []
    else
      var n := Min(size, |entries|);
      [shape.(domains := Some(entries[..n]))] + ChunkRules(entries[n..], size, shape)
  }

  /** Cutting a list of entries into chunks changes nothing: the chunks match exactly when one rule
      with the whole list would, provided there is an entry at all. */
  lemma {:induction false} ChunksMatchTheWhole(entries: seq<string>, size: nat, shape: Rule, f: Flow)
    requires size > 0
    ensures AnyMatch(ChunkRules(entries, size, shape), f) <==> Matches(shape.(domains := Some(entries)), f)
    decreases |entries|
  {
    if |entries| > 0 {
      var n := Min(size, |entries|);
      var head := [shape.(domains := Some(entries[..n]))];
      ChunksMatchTheWhole(entries[n..], size, shape, f);
      AnyMatchAppend(head, ChunkRules(entries[n..], size, shape), f);
      assert AnyMatch(head, f) <==> Matches(head[0], f);
      assert entries == entries[..n] + entries[n..];
      AnyEntryAppend(entries[..n], entries[n..], f);
    }
  }

  lemma {:induction false} ChunksHaveTheShape(entries: seq<string>, size: nat, shape: Rule)
    requires size > 0
    ensures forall r :: r in ChunkRules(entries, size, shape) ==>
              && r == shape.(domains := r.domains)
              && r.domains.Some? && 0 < |r.domains.value| <= size
    decreases |entries|
  {
    if |entries| > 0 {
      var n := Min(size, |entries|);
      ChunksHaveTheShape(entries[n..], size, shape);
    }
  }

  // ------------------------------------------------------------------ the loops

  method BuildDistinctEntries(domains: seq<string>) returns (out: seq<string>)
    ensures out == DistinctEntries(domains)
  {
    out := [];
    var seen: set<string> := {};
    for i := 0 to |domains|
      invariant out == DistinctEntries(domains[..i])
      invariant forall d :: d in seen <==> d != "" && Listed(domains[..i], d)
    {
      var d := CleanDomain(domains[i]);
      assert domains[..i + 1][..i] == domains[..i];
      assert forall e :: Listed(domains[..i + 1], e) <==> Listed(domains[..i], e) || e == d by {
        forall e ensures Listed(domains[..i + 1], e) <==> Listed(domains[..i], e) || e == d {
          ListedSnoc(domains[..i], domains[i], e);
          assert domains[..i + 1] == domains[..i] + [domains[i]];
        }
      }
      if d == "" || d in seen { continue; }
      seen := seen + {d};
      out := out + ["domain:" + d, "full:" + d];
    }
    assert domains[..|domains|] == domains;
  }

  lemma ListedSnoc(domains: seq<string>, x: string, d: string)
    ensures Listed(domains + [x], d) <==> Listed(domains, d) || CleanDomain(x) == d
  {
    var all := domains + [x];
    if Listed(domains, d) {
      var i :| 0 <= i < |domains| && CleanDomain(domains[i]) == d;
      assert CleanDomain(all[i]) == d;
    }
    assert all[|domains|] == x;
  }

  method BuildAllEntries(domains: seq<string>) returns (out: seq<string>)
    ensures out == AllEntries(domains)
  {
    out := [];
    for i := 0 to |domains|
      invariant out == AllEntries(domains[..i])
    {
      assert domains[..i + 1][..i] == domains[..i];
      var d := CleanDomain(domains[i]);
      if d == "" { continue; }
      out := out + ["domain:" + d, "full:" + d];
    }
    assert domains[..|domains|] == domains;
  }

  lemma ChunkStep(entries: seq<string>, size: nat, shape: Rule, i: nat, end: nat)
    requires size > 0 && i < |entries| && end == Min(i + size, |entries|)
    ensures ChunkRules(entries[i..], size, shape)
         == [shape.(domains := Some(entries[i..end]))] + ChunkRules(entries[end..], size, shape)
  {
    assert entries[i..][..end - i] == entries[i..end] && entries[i..][end - i..] == entries[end..];
  }

  method BuildChunkRules(entries: seq<string>, size: nat, shape: Rule) returns (rules: seq<Rule>)
    requires size > 0
    ensures rules == ChunkRules(entries, size, shape)
  {
    rules := [];
    var i := 0;
    assert entries[0..] == entries;
    while i < |entries|
      invariant i <= |entries|
      invariant rules + ChunkRules(entries[i..], size, shape) == ChunkRules(entries, size, shape)
      decreases |entries| - i
    {
      var end := Min(i + size, |entries|);
      var rule := shape.(domains := Some(entries[i..end]));
      ChunkStep(entries, size, shape, i, end);
      assert rules + ([rule] + ChunkRules(entries[end..], size, shape)) == (rules + [rule]) + ChunkRules(entries[end..], size, shape);
      rules := rules + [rule];
      i := end;
    }
  }
}
