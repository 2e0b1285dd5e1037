/** What the sing-box engine reads: the panel's spec, the configuration rendered from it, the
    rule that decides which user entries an identifier revokes, and the order-insensitive
    fingerprint that decides whether a configuration has changed. */
module SingBoxConfig {
  import opened Base
  import opened Sorting

  datatype User = User(name: string, password: Option<string>, uuid: Option<string>)

  datatype Kind = Hysteria2 | Tuic | AnyTls

  /** `settings` stands for the listen address, TLS material and protocol extras. */
  datatype Inbound = Inbound(kind: Kind, tag: string, settings: string, users: seq<User>)

  /** `globals` stands for the log, DNS, outbound, route and API blocks. */
  datatype Spec = Spec(inbounds: seq<Inbound>, globals: string)

  /** A rendered user; only TUIC entries carry a uuid. */
  datatype Entry = Entry(name: string, password: string, uuid: Option<string>)

  datatype Listener = Listener(kind: Kind, tag: string, settings: string, users: seq<Entry>)

  datatype Stats = Stats(inbounds: seq<string>, users: seq<string>)

  datatype Config = Config(inbounds: seq<Listener>, stats: Option<Stats>, globals: string)

  // ------------------------------------------------------------------ identifiers

  function OrEmpty(o: Option<string>): string { if o.Some? then o.value else "" }

  /** The part of a panel email `<id>.<username>` after its first dot. */
  function AfterDot(s: string): Option<string> {
    if s == [] then None else if s[0] == '.' then Some(s[1..]) else AfterDot(s[1..])
  }

  predicate NameMatches(name: string, ids: set<string>) {
    name in ids || (AfterDot(name).Some? && AfterDot(name).value in ids)
  }

  predicate Matches(name: string, password: string, uuid: string, ids: set<string>) {
    NameMatches(name, ids) || (password != "" && password in ids) || (uuid != "" && uuid in ids)
  }

  predicate UserMatches(u: User, ids: set<string>) {
    Matches(u.name, OrEmpty(u.password), OrEmpty(u.uuid), ids)
  }

  predicate EntryMatches(e: Entry, ids: set<string>) {
    Matches(e.name, e.password, OrEmpty(e.uuid), ids)
  }

  /** Trimmed, non-empty identifiers. */
  function NormalizeIdentifiers(names: seq<string>): (ids: set<string>)
    ensures "" !in ids
  {
    set n | n in names && Strip(n) != "" :: Strip(n)
  }

  // ------------------------------------------------------------------ rendering

  function RenderUser(kind: Kind, u: User): Entry {
    Entry(u.name, OrEmpty(u.password), if kind == Tuic then Some(OrEmpty(u.uuid)) else None)
  }

  function RenderUsers(kind: Kind, users: seq<User>): (r: seq<Entry>)
    ensures |r| == |users| && forall k :: 0 <= k < |users| ==> r[k] == RenderUser(kind, users[k])
  {
    Map((u: User) => RenderUser(kind, u), users)
  }

  function RenderInbound(i: Inbound): Listener {
    Listener(i.kind, i.tag, i.settings, RenderUsers(i.kind, i.users))
  }

  function NamesOf(users: seq<User>): (r: seq<string>)
    ensures |r| == |users| && forall k :: 0 <= k < |users| ==> r[k] == users[k].name
  {
    Map((u: User) => u.name, users)
  }

  function UserNames(inbounds: seq<Inbound>): seq<string> {
    if inbounds == [] then []
    else NamesOf(inbounds[0].users) + UserNames(inbounds[1..])
  }

  function Distinct(names: seq<string>): seq<string> {
    if names == [] then []
    else
      var rest := Distinct(names[1..]);
      if names[0] in rest then rest else [names[0]] + rest
  }

  function RenderConfig(s: Spec, v2rayApi: bool): Config {
    var names := Sort(StringLeq, Distinct(UserNames(s.inbounds)));
    Config(Map(RenderInbound, s.inbounds),
           if v2rayApi && s.inbounds != [] && names != []
           then Some(Stats(Map((i: Inbound) => i.tag, s.inbounds), names)) else None,
           s.globals)
  }

  // ------------------------------------------------------------------ revocation

  function UserKept(ids: set<string>): User -> bool { (u: User) => !UserMatches(u, ids) }

  function EntryKept(ids: set<string>): Entry -> bool { (e: Entry) => !EntryMatches(e, ids) }

  function NameKept(ids: set<string>): string -> bool { (n: string) => !NameMatches(n, ids) }

  function StripUsers(users: seq<User>, ids: set<string>): (r: seq<User>)
    ensures forall u :: u in r <==> u in users && !UserMatches(u, ids)
  {
    Filter(UserKept(ids), users)
  }

  function StripEntries(users: seq<Entry>, ids: set<string>): (r: seq<Entry>)
    ensures forall e :: e in r <==> e in users && !EntryMatches(e, ids)
  {
    Filter(EntryKept(ids), users)
  }

  function StripNames(names: seq<string>, ids: set<string>): (r: seq<string>)
    ensures forall n :: n in r <==> n in names && !NameMatches(n, ids)
  {
    Filter(NameKept(ids), names)
  }

  function StripInbounds(inbounds: seq<Inbound>, ids: set<string>): (r: seq<Inbound>)
    ensures |r| == |inbounds|
    ensures forall k :: 0 <= k < |r| ==> r[k] == inbounds[k].(users := StripUsers(inbounds[k].users, ids))
  {
    Map((i: Inbound) => i.(users := StripUsers(i.users, ids)), inbounds)
  }

  function StripListeners(ls: seq<Listener>, ids: set<string>): (r: seq<Listener>)
    ensures |r| == |ls|
    ensures forall k :: 0 <= k < |r| ==> r[k] == ls[k].(users := StripEntries(ls[k].users, ids))
  {
    Map((l: Listener) => l.(users := StripEntries(l.users, ids)), ls)
  }

  function StripSpec(s: Spec, ids: set<string>): Spec {
    s.(inbounds := StripInbounds(s.inbounds, ids))
  }

  function StripConfig(c: Config, ids: set<string>): Config {
    c.(inbounds := StripListeners(c.inbounds, ids),
       stats := if c.stats.Some?
                then Some(c.stats.value.(users := StripNames(c.stats.value.users, ids))) else None)
  }

  ghost predicate CleanEntries(users: seq<Entry>, ids: set<string>) {
    forall e :: e in users ==> !EntryMatches(e, ids)
  }

  ghost predicate CleanNames(names: seq<string>, ids: set<string>) {
    forall n :: n in names ==> !NameMatches(n, ids)
  }

  /** No user entry, and no name whose traffic is counted, matches any of the identifiers. */
  ghost predicate Clean(c: Config, ids: set<string>) {
    && (forall k :: 0 <= k < |c.inbounds| ==> CleanEntries(c.inbounds[k].users, ids))
    && (c.stats.Some? ==> CleanNames(c.stats.value.users, ids))
  }

  lemma CleanShrinks(c: Config, ids: set<string>, fewer: set<string>)
    requires Clean(c, ids) && fewer <= ids
    ensures Clean(c, fewer)
  {
    forall k | 0 <= k < |c.inbounds| ensures CleanEntries(c.inbounds[k].users, fewer) {
      assert CleanEntries(c.inbounds[k].users, ids);
    }
  }

  lemma StripEntriesCleans(users: seq<Entry>, ids: set<string>, more: set<string>)
    requires CleanEntries(users, ids)
    ensures CleanEntries(StripEntries(users, more), ids + more)
  {
  }

  /** Stripping newly revoked identifiers keeps the earlier ones out as well. */
  lemma StripCleans(c: Config, ids: set<string>, more: set<string>)
    requires Clean(c, ids)
    ensures Clean(StripConfig(c, more), ids + more)
  {
    forall k | 0 <= k < |c.inbounds|
      ensures CleanEntries(StripConfig(c, more).inbounds[k].users, ids + more)
    {
      StripEntriesCleans(c.inbounds[k].users, ids, more);
    }
  }

  lemma {:induction false} DistinctFrom(names: seq<string>, n: string)
    ensures n in Distinct(names) <==> n in names
  {
    if names != [] { DistinctFrom(names[1..], n); }
  }

  lemma RenderedEntriesClean(kind: Kind, users: seq<User>, ids: set<string>)
    ensures CleanEntries(RenderUsers(kind, StripUsers(users, ids)), ids)
  {
    var kept := StripUsers(users, ids);
    forall e | e in RenderUsers(kind, kept) ensures !EntryMatches(e, ids) {
      var m :| 0 <= m < |kept| && RenderUser(kind, kept[m]) == e;
      assert kept[m] in kept;
    }
  }

  lemma {:induction false} StrippedNamesClean(inbounds: seq<Inbound>, ids: set<string>)
    ensures CleanNames(UserNames(StripInbounds(inbounds, ids)), ids)
  {
    if inbounds != [] {
      var kept := StripInbounds(inbounds, ids);
      assert kept[1..] == StripInbounds(inbounds[1..], ids);
      StrippedNamesClean(inbounds[1..], ids);
      forall n | n in NamesOf(kept[0].users) ensures !NameMatches(n, ids) {
        var m :| 0 <= m < |kept[0].users| && kept[0].users[m].name == n;
        assert kept[0].users[m] in StripUsers(inbounds[0].users, ids);
      }
    }
  }

  /** A spec filtered by the revoked set renders to a configuration free of it. */
  lemma StrippedSpecRendersClean(s: Spec, v2rayApi: bool, ids: set<string>)
    ensures Clean(RenderConfig(StripSpec(s, ids), v2rayApi), ids)
  {
    var t := StripSpec(s, ids);
    var c := RenderConfig(t, v2rayApi);
    forall k | 0 <= k < |c.inbounds| ensures CleanEntries(c.inbounds[k].users, ids) {
      RenderedEntriesClean(s.inbounds[k].kind, s.inbounds[k].users, ids);
    }
    StrippedNamesClean(s.inbounds, ids);
    StringLeqIsTotalOrder();
    var names := UserNames(t.inbounds);
    SortSorts(StringLeq, Distinct(names));
    forall n | n in Sort(StringLeq, Distinct(names)) ensures n in names {
      assert n in multiset(Distinct(names));
      DistinctFrom(names, n);
    }
  }

  // ------------------------------------------------------------------ what identifiers mean

  /** The identifier is the name, or follows its first dot, or is the password or the uuid. */
  ghost predicate Denotes(id: string, name: string, password: string, uuid: string) {
    || DenotesName(id, name)
    || (id != "" && (password == id || uuid == id))
  }

  ghost predicate DenotesName(id: string, name: string) {
    name == id || exists p: string :: '.' !in p && name == p + "." + id
  }

  lemma {:induction false} AfterDotIff(name: string, id: string)
    ensures AfterDot(name) == Some(id) <==> exists p: string :: '.' !in p && name == p + "." + id
    decreases |name|
  {
    if name != [] {
      if name[0] == '.' {
        if AfterDot(name) == Some(id) { assert '.' !in "" && name == "" + "." + id; }
        if p: string :| '.' !in p && name == p + "." + id {
          assert name[0] == (p + ".")[0];
          assert name[1..] == id;
        }
      } else {
        AfterDotIff(name[1..], id);
        if AfterDot(name) == Some(id) {
          var p: string :| '.' !in p && name[1..] == p + "." + id;
          assert name == ([name[0]] + p) + "." + id && '.' !in [name[0]] + p;
        }
        if p: string :| '.' !in p && name == p + "." + id {
          assert name[0] == (p + ".")[0];
          assert name[1..] == p[1..] + "." + id && '.' !in p[1..];
        }
      }
    }
  }

  lemma NameMatchesIff(name: string, ids: set<string>)
    ensures NameMatches(name, ids) <==> exists id :: id in ids && DenotesName(id, name)
  {
    if AfterDot(name).Some? { AfterDotIff(name, AfterDot(name).value); }
    if id :| id in ids && DenotesName(id, name) { AfterDotIff(name, id); }
  }

  /** A user entry matches a set of identifiers exactly when one of them denotes it. */
  lemma MatchesIff(name: string, password: string, uuid: string, ids: set<string>)
    ensures Matches(name, password, uuid, ids) <==> exists id :: id in ids && Denotes(id, name, password, uuid)
  {
    hide NameMatches;
    NameMatchesIff(name, ids);
    if Matches(name, password, uuid, ids) {
      if NameMatches(name, ids) {
        var id :| id in ids && DenotesName(id, name);
        assert Denotes(id, name, password, uuid);
      } else if password != "" && password in ids {
        assert Denotes(password, name, password, uuid);
      } else {
        assert Denotes(uuid, name, password, uuid);
      }
    }
  }

  /** The name, trimmed, is this identifier. */
  ghost predicate Given(names: seq<string>, id: string) {
    id != "" && exists n :: n in names && TrimsTo(n, id)
  }

  lemma NormalizedIff(names: seq<string>, id: string)
    ensures id in NormalizeIdentifiers(names) <==> Given(names, id)
  {
    if n :| n in names && TrimsTo(n, id) { TrimIsStrip(n, id); }
    if id in NormalizeIdentifiers(names) {
      var n :| n in names && Strip(n) == id;
      TrimIsStrip(n, id);
    }
  }

  /** One of the given names denotes the entry, the user or the counted name. */
  ghost predicate EntryNamed(names: seq<string>, e: Entry) {
    exists id :: Given(names, id) && Denotes(id, e.name, e.password, OrEmpty(e.uuid))
  }

  ghost predicate UserNamed(names: seq<string>, u: User) {
    exists id :: Given(names, id) && Denotes(id, u.name, OrEmpty(u.password), OrEmpty(u.uuid))
  }

  ghost predicate CountedNamed(names: seq<string>, n: string) { exists id :: Given(names, id) && DenotesName(id, n) }

  lemma EntryNamedIff(names: seq<string>, e: Entry)
    ensures EntryMatches(e, NormalizeIdentifiers(names)) <==> EntryNamed(names, e)
  {
    hide NormalizeIdentifiers, Matches;
    var ids := NormalizeIdentifiers(names);
    MatchesIff(e.name, e.password, OrEmpty(e.uuid), ids);
    forall id ensures id in ids <==> Given(names, id) { NormalizedIff(names, id); }
  }

  lemma UserNamedIff(names: seq<string>, u: User)
    ensures UserMatches(u, NormalizeIdentifiers(names)) <==> UserNamed(names, u)
  {
    hide NormalizeIdentifiers, Matches;
    var ids := NormalizeIdentifiers(names);
    MatchesIff(u.name, OrEmpty(u.password), OrEmpty(u.uuid), ids);
    forall id ensures id in ids <==> Given(names, id) { NormalizedIff(names, id); }
  }

  lemma CountedNamedIff(names: seq<string>, n: string)
    ensures NameMatches(n, NormalizeIdentifiers(names)) <==> CountedNamed(names, n)
  {
    hide NormalizeIdentifiers, NameMatches;
    var ids := NormalizeIdentifiers(names);
    NameMatchesIff(n, ids);
    forall id ensures id in ids <==> Given(names, id) { NormalizedIff(names, id); }
  }

  ghost function NotNamed(names: seq<string>): Entry -> bool { (e: Entry) => !EntryNamed(names, e) }

  ghost function UserNotNamed(names: seq<string>): User -> bool { (u: User) => !UserNamed(names, u) }

  ghost function CountedNotNamed(names: seq<string>): string -> bool { (n: string) => !CountedNamed(names, n) }

  /** `d` is `c` without the entries and counted names that the given names denote, and otherwise
      the same, in the same order. */
  ghost predicate WithoutNamed(c: Config, d: Config, names: seq<string>) {
    && d.globals == c.globals && |d.inbounds| == |c.inbounds|
    && (forall k :: 0 <= k < |c.inbounds| ==>
          d.inbounds[k] == c.inbounds[k].(users := Filter(NotNamed(names), c.inbounds[k].users)))
    && d.stats == if c.stats == None then None
                  else Some(Stats(c.stats.value.inbounds, Filter(CountedNotNamed(names), c.stats.value.users)))
  }

  ghost predicate SpecWithoutNamed(s: Spec, t: Spec, names: seq<string>) {
    && t.globals == s.globals && |t.inbounds| == |s.inbounds|
    && forall k :: 0 <= k < |s.inbounds| ==>
         t.inbounds[k] == s.inbounds[k].(users := Filter(UserNotNamed(names), s.inbounds[k].users))
  }

  /** Stripping removes from a file exactly what the given names denote. */
  lemma StripRemovesExactlyTheNamed(c: Config, names: seq<string>)
    ensures WithoutNamed(c, StripConfig(c, NormalizeIdentifiers(names)), names)
  {
    hide NormalizeIdentifiers, EntryMatches, NameMatches, EntryNamed, CountedNamed;
    var ids := NormalizeIdentifiers(names);
    forall k | 0 <= k < |c.inbounds|
      ensures StripEntries(c.inbounds[k].users, ids) == Filter(NotNamed(names), c.inbounds[k].users)
    {
      var users := c.inbounds[k].users;
      forall e | e in users ensures EntryKept(ids)(e) == NotNamed(names)(e) { EntryNamedIff(names, e); }
      FilterSame(EntryKept(ids), NotNamed(names), users);
    }
    if c.stats.Some? {
      var users := c.stats.value.users;
      forall n | n in users ensures NameKept(ids)(n) == CountedNotNamed(names)(n) { CountedNamedIff(names, n); }
      FilterSame(NameKept(ids), CountedNotNamed(names), users);
    }
  }

  lemma SpecStripRemovesExactlyTheNamed(s: Spec, names: seq<string>)
    ensures SpecWithoutNamed(s, StripSpec(s, NormalizeIdentifiers(names)), names)
  {
    hide NormalizeIdentifiers, UserMatches, UserNamed;
    var ids := NormalizeIdentifiers(names);
    forall k | 0 <= k < |s.inbounds|
      ensures StripUsers(s.inbounds[k].users, ids) == Filter(UserNotNamed(names), s.inbounds[k].users)
    {
      var users := s.inbounds[k].users;
      forall u | u in users ensures UserKept(ids)(u) == UserNotNamed(names)(u) { UserNamedIff(names, u); }
      FilterSame(UserKept(ids), UserNotNamed(names), users);
    }
  }

  // ------------------------------------------------------------------ what is written

  ghost function Unrevoked(revoked: set<string>): User -> bool {
    (u: User) => !exists id :: id in revoked && Denotes(id, u.name, OrEmpty(u.password), OrEmpty(u.uuid))
  }

  /** The entry is the user's: name and password, and for TUIC the uuid, empty text for what is missing. */
  ghost predicate EntryOf(e: Entry, kind: Kind, u: User) {
    && e.name == u.name
    && (match u.password case None => e.password == "" case Some(p) => e.password == p)
    && (match kind
        case Tuic => e.uuid == Some(match u.uuid case None => "" case Some(x) => x)
        case _ => e.uuid == None)
  }

  ghost predicate ListenerOf(l: Listener, i: Inbound, revoked: set<string>) {
    var users := Filter(Unrevoked(revoked), i.users);
    && l.kind == i.kind && l.tag == i.tag && l.settings == i.settings && |l.users| == |users|
    && forall n :: 0 <= n < |users| ==> EntryOf(l.users[n], i.kind, users[n])
  }

  /** Someone unrevoked of the spec has this name. */
  ghost predicate Served(spec: Spec, revoked: set<string>, name: string) {
    exists k, u :: 0 <= k < |spec.inbounds| && u in spec.inbounds[k].users && Unrevoked(revoked)(u) && u.name == name
  }

  /** The file is the spec's: a listener for each inbound with the unrevoked users in order; and,
      where statistics are on and there is someone to count, the tags and every served name once, in
      ascending order. */
  ghost predicate FileOf(c: Config, spec: Spec, revoked: set<string>, v2rayApi: bool) {
    && c.globals == spec.globals && |c.inbounds| == |spec.inbounds|
    && (forall k :: 0 <= k < |spec.inbounds| ==> ListenerOf(c.inbounds[k], spec.inbounds[k], revoked))
    && (c.stats.Some? <==> v2rayApi && exists name :: Served(spec, revoked, name))
    && (c.stats.Some? ==>
          && |c.stats.value.inbounds| == |spec.inbounds|
          && (forall k :: 0 <= k < |spec.inbounds| ==> c.stats.value.inbounds[k] == spec.inbounds[k].tag)
          && (forall name :: name in c.stats.value.users <==> Served(spec, revoked, name))
          && (forall i, j :: 0 <= i < j < |c.stats.value.users| ==> Before(c.stats.value.users[i], c.stats.value.users[j])))
  }

  lemma UserUnrevoked(u: User, revoked: set<string>)
    ensures UserKept(revoked)(u) == Unrevoked(revoked)(u)
  {
    hide Matches;
    MatchesIff(u.name, OrEmpty(u.password), OrEmpty(u.uuid), revoked);
  }

  lemma StrippedAreUnrevoked(users: seq<User>, revoked: set<string>)
    ensures StripUsers(users, revoked) == Filter(Unrevoked(revoked), users)
  {
    hide UserKept, Unrevoked, UserMatches;
    forall u | u in users ensures UserKept(revoked)(u) == Unrevoked(revoked)(u) { UserUnrevoked(u, revoked); }
    FilterSame(UserKept(revoked), Unrevoked(revoked), users);
  }

  lemma {:induction false} NameListed(inbounds: seq<Inbound>, name: string)
    ensures name in UserNames(inbounds) <==>
            exists k, u :: 0 <= k < |inbounds| && u in inbounds[k].users && u.name == name
    decreases |inbounds|
  {
    if inbounds != [] {
      var rest := inbounds[1..];
      NameListed(rest, name);
      var first := inbounds[0].users;
      if name in NamesOf(first) {
        var n :| 0 <= n < |first| && NamesOf(first)[n] == name;
        assert first[n] in inbounds[0].users && first[n].name == name;
      }
      if name in UserNames(rest) {
        var k, u :| 0 <= k < |rest| && u in rest[k].users && u.name == name;
        assert u in inbounds[k + 1].users;
      }
      if k, u :| 0 <= k < |inbounds| && u in inbounds[k].users && u.name == name {
        if k == 0 {
          var n :| 0 <= n < |first| && first[n] == u;
          assert NamesOf(first)[n] == name;
        } else {
          assert u in rest[k - 1].users;
        }
      }
    }
  }

  lemma {:induction false} DistinctIsDistinct(names: seq<string>)
    ensures forall n :: n in Distinct(names) ==> multiset(Distinct(names))[n] == 1
    decreases |names|
  {
    if names != [] {
      DistinctIsDistinct(names[1..]);
      var rest := Distinct(names[1..]);
      if names[0] !in rest {
        assert Distinct(names) == [names[0]] + rest;
        assert multiset(Distinct(names)) == multiset{names[0]} + multiset(rest);
      }
    }
  }

  lemma ListenerIs(i: Inbound, revoked: set<string>)
    ensures ListenerOf(RenderInbound(i.(users := StripUsers(i.users, revoked))), i, revoked)
  {
    hide Unrevoked, UserMatches;
    StrippedAreUnrevoked(i.users, revoked);
  }

  lemma ServedIff(spec: Spec, revoked: set<string>, name: string)
    ensures name in UserNames(StripSpec(spec, revoked).inbounds) <==> Served(spec, revoked, name)
  {
    hide Unrevoked, UserMatches, UserKept;
    var t := StripSpec(spec, revoked);
    NameListed(t.inbounds, name);
    forall k, u | 0 <= k < |spec.inbounds|
      ensures u in t.inbounds[k].users <==> u in spec.inbounds[k].users && Unrevoked(revoked)(u)
    {
      StrippedAreUnrevoked(spec.inbounds[k].users, revoked);
    }
  }

  /** What an apply writes, said of the file alone. */
  lemma RenderedFileIs(spec: Spec, revoked: set<string>, v2rayApi: bool)
    ensures FileOf(RenderConfig(StripSpec(spec, revoked), v2rayApi), spec, revoked, v2rayApi)
  {
    var t := StripSpec(spec, revoked);
    var c := RenderConfig(t, v2rayApi);
    hide Unrevoked, UserMatches, ListenerOf, Served, RenderInbound, StripUsers, Before, Sort, Distinct, UserNames;
    forall k | 0 <= k < |spec.inbounds| ensures ListenerOf(c.inbounds[k], spec.inbounds[k], revoked) {
      ListenerIs(spec.inbounds[k], revoked);
    }
    CountedAre(spec, revoked);
  }

  /** The sorted, de-duplicated names are the served ones, each once and in ascending order. */
  lemma CountedAre(spec: Spec, revoked: set<string>)
    ensures var names := Sort(StringLeq, Distinct(UserNames(StripSpec(spec, revoked).inbounds)));
            && (forall name :: name in names <==> Served(spec, revoked, name))
            && (forall i, j :: 0 <= i < j < |names| ==> Before(names[i], names[j]))
            && (names != [] <==> exists name :: Served(spec, revoked, name))
            && (names != [] ==> spec.inbounds != [])
  {
    hide Unrevoked, UserMatches, Served, StripUsers, Before;
    var names := UserNames(StripSpec(spec, revoked).inbounds);
    var sorted := Sort(StringLeq, Distinct(names));
    DistinctIsDistinct(names);
    SortedOnce(Distinct(names));
    forall name ensures name in sorted <==> Served(spec, revoked, name) {
      DistinctFrom(names, name);
      ServedIff(spec, revoked, name);
    }
    if sorted != [] {
      assert sorted[0] in sorted;
      ServedSomewhere(spec, revoked, sorted[0]);
    }
  }

  lemma ServedSomewhere(spec: Spec, revoked: set<string>, name: string)
    requires Served(spec, revoked, name)
    ensures spec.inbounds != []
  {
  }

  // ------------------------------------------------------------------ fingerprint

  function UuidKey(o: Option<string>): string { if o.Some? then "+" + o.value else "" }

  /** The entries' sort key, compared field by field. */
  predicate EntryLeq(a: Entry, b: Entry) {
    if a.name != b.name then StringLeq(a.name, b.name)
    else if a.password != b.password then StringLeq(a.password, b.password)
    else StringLeq(UuidKey(a.uuid), UuidKey(b.uuid))
  }

  lemma EntryLeqIsTotalOrder()
    ensures TotalOrder(EntryLeq)
  {
    StringLeqIsTotalOrder();
    forall a: Entry, b: Entry | EntryLeq(a, b) && EntryLeq(b, a) ensures a == b {
      UuidKeyInjective(a.uuid, b.uuid);
    }
  }

  lemma UuidKeyInjective(a: Option<string>, b: Option<string>)
    ensures UuidKey(a) == UuidKey(b) ==> a == b
  {
    if a.Some? && b.Some? && UuidKey(a) == UuidKey(b) {
      assert UuidKey(a)[1..] == a.value && UuidKey(b)[1..] == b.value;
    }
  }

  /** The digest's input: users and counted names in sorted order, all else as rendered. */
  function Fingerprint(c: Config): Config {
    Config(Map((l: Listener) => l.(users := Sort(EntryLeq, l.users)), c.inbounds),
           if c.stats.Some?
           then Some(Stats(Sort(StringLeq, c.stats.value.inbounds), Sort(StringLeq, c.stats.value.users)))
           else None,
           c.globals)
  }

  ghost predicate SameListener(a: Listener, b: Listener) {
    a.kind == b.kind && a.tag == b.tag && a.settings == b.settings && multiset(a.users) == multiset(b.users)
  }

  ghost predicate SameStats(a: Option<Stats>, b: Option<Stats>) {
    a.Some? == b.Some? &&
    (a.Some? ==> multiset(a.value.inbounds) == multiset(b.value.inbounds) &&
                 multiset(a.value.users) == multiset(b.value.users))
  }

  /** The two configurations differ at most in the order of user lists and statistics lists. */
  ghost predicate SameUpToOrder(a: Config, b: Config) {
    && a.globals == b.globals
    && |a.inbounds| == |b.inbounds|
    && (forall k :: 0 <= k < |a.inbounds| ==> SameListener(a.inbounds[k], b.inbounds[k]))
    && SameStats(a.stats, b.stats)
  }

  lemma FingerprintIffSame(a: Config, b: Config)
    ensures Fingerprint(a) == Fingerprint(b) <==> SameUpToOrder(a, b)
  {
    EntryLeqIsTotalOrder();
    StringLeqIsTotalOrder();
    var fa, fb := Fingerprint(a), Fingerprint(b);
    if a.stats.Some? && b.stats.Some? {
      SortIffSameElements(StringLeq, a.stats.value.inbounds, b.stats.value.inbounds);
      SortIffSameElements(StringLeq, a.stats.value.users, b.stats.value.users);
    }
    if |a.inbounds| == |b.inbounds| {
      forall k | 0 <= k < |a.inbounds|
        ensures fa.inbounds[k] == fb.inbounds[k] <==> SameListener(a.inbounds[k], b.inbounds[k])
      {
        SortIffSameElements(EntryLeq, a.inbounds[k].users, b.inbounds[k].users);
      }
      assert fa.inbounds == fb.inbounds <==> forall k :: 0 <= k < |a.inbounds| ==> fa.inbounds[k] == fb.inbounds[k];
    }
  }
}
