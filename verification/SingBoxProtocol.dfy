/** The sing-box manager: queued applies, revocations and engine restarts.

    An apply runs in several blocks that each hold the manager's lock; between two blocks any
    other thread may schedule, revoke or un-revoke.  Each block is one step of the machine
    below, so its runs are all interleavings at lock granularity. */
module SingBoxProtocol {
  import opened Base
  import opened SingBoxConfig

  /** A running engine; `owned` is false for a process left by an earlier agent. */
  datatype Engine = Engine(config: Config, owned: bool)

  datatype Manager = Manager(
    v2rayApi: bool,
    disk: Option<Config>,
    pending: Option<Spec>,
    pendingRestart: bool,
    generation: nat,
    revoked: set<string>,
    noChange: bool,
    engine: Option<Engine>)

  // ------------------------------------------------------------------ effects of the lock blocks

  /** How many entries a revocation drops from a queued spec or from the file on disk. */
  function DroppedFromSpec(inbounds: seq<Inbound>, ids: set<string>): nat {
    if inbounds == [] then 0
    else |inbounds[0].users| - |StripUsers(inbounds[0].users, ids)| + DroppedFromSpec(inbounds[1..], ids)
  }

  function DroppedFromListeners(ls: seq<Listener>, ids: set<string>): nat {
    if ls == [] then 0
    else |ls[0].users| - |StripEntries(ls[0].users, ids)| + DroppedFromListeners(ls[1..], ids)
  }

  function DroppedFromConfig(c: Config, ids: set<string>): nat {
    DroppedFromListeners(c.inbounds, ids) +
    (if c.stats.Some? then |c.stats.value.users| - |StripNames(c.stats.value.users, ids)| else 0)
  }

  function Dropped(m: Manager, ids: set<string>): nat {
    (if m.pending.Some? then DroppedFromSpec(m.pending.value.inbounds, ids) else 0) +
    (if m.disk.Some? then DroppedFromConfig(m.disk.value, ids) else 0)
  }

  function AfterRevoke(m: Manager, ids: set<string>): Manager {
    if ids == {} then m
    else m.(revoked := m.revoked + ids,
            generation := m.generation + 1,
            pending := if m.pending.Some? then Some(StripSpec(m.pending.value, ids)) else None,
            disk := if m.disk.Some? then Some(StripConfig(m.disk.value, ids)) else None,
            pendingRestart := m.pendingRestart || Dropped(m, ids) > 0)
  }

  function AfterUnrevoke(m: Manager, ids: set<string>): Manager {
    m.(revoked := m.revoked - ids)
  }

  function Rendered(m: Manager, spec: Spec): Config {
    RenderConfig(StripSpec(spec, m.revoked), m.v2rayApi)
  }

  /** The first block of an apply: filter, compare with the file, write the file. */
  function AfterWrite(m: Manager, spec: Spec): Manager {
    var cfg := Rendered(m, spec);
    m.(noChange := m.disk.Some? && Fingerprint(cfg) == Fingerprint(m.disk.value), disk := Some(cfg))
  }

  function AfterStop(m: Manager): Manager {
    if m.engine.Some? && m.engine.value.owned then m.(engine := None) else m
  }

  function AfterRestart(m: Manager): Manager {
    m.(engine := if m.disk.Some? then Some(Engine(m.disk.value, true)) else None)
  }

  // ------------------------------------------------------------------ the interleaved machine

  datatype Stage = Begun | Written | Checked | Settled(keep: bool)

  /** `generation` is absent for an apply that was called directly rather than queued. */
  datatype Task = Apply(spec: Spec, generation: Option<nat>, stage: Stage) | RestartOnly

  datatype EngineStart = EngineStart(config: Config, revoked: set<string>)

  datatype System = System(m: Manager, tasks: map<nat, Task>, starts: seq<EngineStart>)

  datatype Event =
    | Schedule(spec: Spec)
    | ScheduleRestart
    | Take(thread: nat)
    | Direct(thread: nat, spec: Spec)
    | Write(thread: nat)
    | Check(thread: nat, ok: bool)
    | Settle(thread: nat)
    | Finish(thread: nat)
    | Revoke(names: seq<string>)
    | Unrevoke(names: seq<string>)
    | EngineDies

  predicate At(s: System, t: nat, stage: Stage) {
    t in s.tasks && s.tasks[t].Apply? && s.tasks[t].stage == stage
  }

  predicate Stale(s: System, t: nat)
    requires t in s.tasks && s.tasks[t].Apply?
  {
    s.tasks[t].generation.Some? && s.tasks[t].generation.value != s.m.generation
  }

  function Done(s: System, t: nat): System { s.(tasks := s.tasks - {t}) }

  function Advance(s: System, t: nat, stage: Stage): System
    requires t in s.tasks && s.tasks[t].Apply?
  {
    s.(tasks := s.tasks[t := s.tasks[t].(stage := stage)])
  }

  function StartEngine(s: System): System {
    s.(m := AfterRestart(s.m),
       starts := if s.m.disk.Some? then s.starts + [EngineStart(s.m.disk.value, s.m.revoked)] else s.starts)
  }

  function TakeStep(s: System, t: nat): System {
    if t in s.tasks then s
    else if s.m.pending.Some? then
      System(s.m.(pending := None, pendingRestart := false),
             s.tasks[t := Apply(s.m.pending.value, Some(s.m.generation), Begun)], s.starts)
    else if s.m.pendingRestart then
      System(s.m.(pendingRestart := false), s.tasks[t := RestartOnly], s.starts)
    else s
  }

  function WriteStep(s: System, t: nat): System {
    if !At(s, t, Begun) then s
    else if Stale(s, t) then Done(s, t)
    else
      var spec := s.tasks[t].spec;
      System(AfterWrite(s.m, spec),
             s.tasks[t := Apply(StripSpec(spec, s.m.revoked), s.tasks[t].generation, Written)], s.starts)
  }

  function CheckStep(s: System, t: nat, ok: bool): System {
    if !At(s, t, Written) then s
    else if s.tasks[t].spec.inbounds == [] then Done(s.(m := AfterStop(s.m)), t)
    else if !ok then Done(s, t)
    else Advance(s, t, Checked)
  }

  function SettleStep(s: System, t: nat): System {
    if !At(s, t, Checked) then s
    else if Stale(s, t) then Done(s, t)
    else Advance(s, t, Settled(s.m.noChange))
  }

  function FinishStep(s: System, t: nat): System {
    if t in s.tasks && s.tasks[t].RestartOnly? then Done(StartEngine(s), t)
    else if At(s, t, Settled(true)) && s.m.engine.Some? then Done(s, t)
    else if At(s, t, Settled(true)) || At(s, t, Settled(false)) then Done(StartEngine(s), t)
    else s
  }

  function Step(s: System, e: Event): System {
    match e
    case Schedule(spec) => s.(m := s.m.(pending := Some(spec)))
    case ScheduleRestart => s.(m := s.m.(pendingRestart := true))
    case Take(t) => TakeStep(s, t)
    case Direct(t, spec) => if t in s.tasks then s else s.(tasks := s.tasks[t := Apply(spec, None, Begun)])
    case Write(t) => WriteStep(s, t)
    case Check(t, ok) => CheckStep(s, t, ok)
    case Settle(t) => SettleStep(s, t)
    case Finish(t) => FinishStep(s, t)
    case Revoke(names) => s.(m := AfterRevoke(s.m, NormalizeIdentifiers(names)))
    case Unrevoke(names) => s.(m := AfterUnrevoke(s.m, NormalizeIdentifiers(names)))
    case EngineDies => s.(m := s.m.(engine := None))
  }

  function Exec(s: System, es: seq<Event>): System
    decreases |es|
  {
    if es == [] then s else Exec(Step(s, es[0]), es[1..])
  }

  ghost predicate DiskClean(m: Manager) {
    m.disk.Some? ==> Clean(m.disk.value, m.revoked)
  }

  /** Every engine start so far loaded a file free of the identifiers revoked at that moment. */
  ghost predicate StartsClean(starts: seq<EngineStart>) {
    forall k :: 0 <= k < |starts| ==> Clean(starts[k].config, starts[k].revoked)
  }

  lemma WriteKeepsDiskClean(m: Manager, spec: Spec)
    ensures DiskClean(AfterWrite(m, spec))
  {
    StrippedSpecRendersClean(spec, m.v2rayApi, m.revoked);
  }

  lemma RevokeKeepsDiskClean(m: Manager, ids: set<string>)
    ensures DiskClean(m) ==> DiskClean(AfterRevoke(m, ids)) && DiskClean(AfterUnrevoke(m, ids))
  {
    if m.disk.Some? && DiskClean(m) {
      StripCleans(m.disk.value, m.revoked, ids);
      CleanShrinks(m.disk.value, m.revoked, m.revoked - ids);
    }
  }

  lemma StepKeepsClean(s: System, e: Event)
    requires DiskClean(s.m) && StartsClean(s.starts)
    ensures DiskClean(Step(s, e).m) && StartsClean(Step(s, e).starts)
  {
    match e
    case Write(t) => if At(s, t, Begun) { WriteKeepsDiskClean(s.m, s.tasks[t].spec); }
    case Revoke(names) => RevokeKeepsDiskClean(s.m, NormalizeIdentifiers(names));
    case Unrevoke(names) => RevokeKeepsDiskClean(s.m, NormalizeIdentifiers(names));
    case _ =>
  }

  /** In every interleaving, no entry on disk matches a currently revoked identifier, and every
      engine start loads a list free of the identifiers revoked at that moment. */
  lemma {:induction false} RevokedNeverOnDisk(s: System, es: seq<Event>)
    requires DiskClean(s.m) && StartsClean(s.starts)
    ensures DiskClean(Exec(s, es).m) && StartsClean(Exec(s, es).starts)
    decreases |es|
  {
    if es != [] {
      StepKeepsClean(s, es[0]);
      RevokedNeverOnDisk(Step(s, es[0]), es[1..]);
    }
  }

  /** Without an un-revocation the revoked set only grows, and engines start under at least it. */
  lemma {:induction false} RevokedOnlyGrows(s: System, ids: set<string>, n: nat, es: seq<Event>)
    requires ids <= s.m.revoked && n <= |s.starts| && forall k :: n <= k < |s.starts| ==> ids <= s.starts[k].revoked
    requires forall k :: 0 <= k < |es| ==> !es[k].Unrevoke?
    ensures var v := Exec(s, es);
            && ids <= v.m.revoked && n <= |v.starts| && v.starts[..n] == s.starts[..n]
            && forall k :: n <= k < |v.starts| ==> ids <= v.starts[k].revoked
    decreases |es|
  {
    if es != [] {
      StepGrows(s, ids, n, es[0]);
      assert forall k :: 0 <= k < |es[1..]| ==> es[1..][k] == es[k + 1];
      RevokedOnlyGrows(Step(s, es[0]), ids, n, es[1..]);
    }
  }

  lemma StepGrows(s: System, ids: set<string>, n: nat, e: Event)
    requires ids <= s.m.revoked && n <= |s.starts| && forall k :: n <= k < |s.starts| ==> ids <= s.starts[k].revoked
    requires !e.Unrevoke?
    ensures var v := Step(s, e);
            && ids <= v.m.revoked && n <= |v.starts| && v.starts[..n] == s.starts[..n]
            && forall k :: n <= k < |v.starts| ==> ids <= v.starts[k].revoked
  {
    hide Rendered, Fingerprint, StripSpec, StripConfig, Dropped, NormalizeIdentifiers;
  }

  /** No entry and no counted name of the file is one of the given names, by itself, after the first
      dot, or as password or uuid. */
  ghost predicate FreeOf(c: Config, names: seq<string>) {
    && (forall k, e :: 0 <= k < |c.inbounds| && e in c.inbounds[k].users ==> !EntryNamed(names, e))
    && (c.stats.Some? ==> forall n :: n in c.stats.value.users ==> !CountedNamed(names, n))
  }

  lemma CleanMeansFree(c: Config, revoked: set<string>, names: seq<string>)
    requires Clean(c, revoked) && NormalizeIdentifiers(names) <= revoked
    ensures FreeOf(c, names)
  {
    hide EntryNamed, CountedNamed, NormalizeIdentifiers, EntryMatches, NameMatches;
    CleanShrinks(c, revoked, NormalizeIdentifiers(names));
    forall k, e | 0 <= k < |c.inbounds| && e in c.inbounds[k].users ensures !EntryNamed(names, e) {
      assert CleanEntries(c.inbounds[k].users, NormalizeIdentifiers(names));
      EntryNamedIff(names, e);
    }
    if c.stats.Some? {
      forall n | n in c.stats.value.users ensures !CountedNamed(names, n) { CountedNamedIff(names, n); }
    }
  }

  /** Once names are revoked, and until someone un-revokes, no interleaving of anything else puts
      them back: the file is free of them and so is every file an engine is started on. */
  lemma RevokedNamesStayOff(s: System, names: seq<string>, es: seq<Event>)
    requires DiskClean(s.m) && StartsClean(s.starts) && forall k :: 0 <= k < |es| ==> !es[k].Unrevoke?
    ensures var v := Exec(Step(s, Revoke(names)), es);
            && (v.m.disk.Some? ==> FreeOf(v.m.disk.value, names))
            && |s.starts| <= |v.starts| && forall k :: |s.starts| <= k < |v.starts| ==> FreeOf(v.starts[k].config, names)
  {
    hide Clean, FreeOf, NormalizeIdentifiers, StripSpec, StripConfig, Dropped;
    var ids, t := NormalizeIdentifiers(names), Step(s, Revoke(names));
    StepKeepsClean(s, Revoke(names));
    RevokedNeverOnDisk(t, es);
    RevokedOnlyGrows(t, ids, |s.starts|, es);
    var v := Exec(t, es);
    if v.m.disk.Some? { CleanMeansFree(v.m.disk.value, v.m.revoked, names); }
    forall k | |s.starts| <= k < |v.starts| ensures FreeOf(v.starts[k].config, names) {
      CleanMeansFree(v.starts[k].config, v.starts[k].revoked, names);
    }
  }

  lemma {:induction false} StripNothing(c: Config, s: Spec)
    ensures StripConfig(c, {}) == c && StripSpec(s, {}) == s
  {
    forall k | 0 <= k < |c.inbounds| ensures StripEntries(c.inbounds[k].users, {}) == c.inbounds[k].users {
      FilterAll(EntryKept({}), c.inbounds[k].users);
    }
    assert StripListeners(c.inbounds, {}) == c.inbounds;
    if c.stats.Some? { FilterAll(NameKept({}), c.stats.value.users); }
    forall k | 0 <= k < |s.inbounds| ensures StripUsers(s.inbounds[k].users, {}) == s.inbounds[k].users {
      FilterAll(UserKept({}), s.inbounds[k].users);
    }
    assert StripInbounds(s.inbounds, {}) == s.inbounds;
  }

  /** What a revocation does, in terms of the names alone. */
  lemma RevocationMeans(m: Manager, names: seq<string>)
    ensures var n := AfterRevoke(m, NormalizeIdentifiers(names));
            && (forall x :: x in n.revoked <==> x in m.revoked || Given(names, x))
            && (m.disk.Some? ==> n.disk.Some? && WithoutNamed(m.disk.value, n.disk.value, names))
            && (m.pending.Some? ==> n.pending.Some? && SpecWithoutNamed(m.pending.value, n.pending.value, names))
            && n.generation == m.generation + (if exists x :: Given(names, x) then 1 else 0)
            && (n.pendingRestart <==> m.pendingRestart || n.disk != m.disk || n.pending != m.pending)
  {
    hide NormalizeIdentifiers, StripConfig, StripSpec, WithoutNamed, SpecWithoutNamed, Given, DroppedFromSpec, DroppedFromConfig;
    var ids := NormalizeIdentifiers(names);
    forall x ensures x in ids <==> Given(names, x) { NormalizedIff(names, x); }
    if m.disk.Some? { StripRemovesExactlyTheNamed(m.disk.value, names); }
    if m.pending.Some? { SpecStripRemovesExactlyTheNamed(m.pending.value, names); }
    if ids == {} {
      if m.disk.Some? { StripNothing(m.disk.value, Spec([], "")); }
      if m.pending.Some? { StripNothing(Config([], None, ""), m.pending.value); }
    } else {
      var x :| x in ids;
      assert Given(names, x);
      if m.disk.Some? { ConfigDroppedIff(m.disk.value, ids); }
      if m.pending.Some? { SpecDroppedIff(m.pending.value, ids); }
    }
  }

  lemma {:induction false} ShorterIffDropped<T(!new)>(p: T -> bool, s: seq<T>)
    ensures |Filter(p, s)| <= |s| && (|Filter(p, s)| == |s| <==> Filter(p, s) == s)
  {
    if |Filter(p, s)| == |s| { NoneFilteredOut(p, s); }
  }

  /** Something was dropped from the file exactly when it is no longer the same. */
  lemma ConfigDroppedIff(c: Config, ids: set<string>)
    ensures DroppedFromConfig(c, ids) > 0 <==> StripConfig(c, ids) != c
  {
    if c.stats.Some? { ShorterIffDropped(NameKept(ids), c.stats.value.users); }
    if DroppedFromListeners(c.inbounds, ids) == 0 {
      NothingDropped(c.inbounds, ids);
    } else {
      SomethingDropped(c.inbounds, ids);
    }
  }

  lemma {:induction false} SomethingDropped(ls: seq<Listener>, ids: set<string>)
    requires DroppedFromListeners(ls, ids) > 0
    ensures StripListeners(ls, ids) != ls
    decreases |ls|
  {
    if |ls[0].users| == |StripEntries(ls[0].users, ids)| {
      SomethingDropped(ls[1..], ids);
      assert StripListeners(ls, ids)[1..] == StripListeners(ls[1..], ids);
    } else {
      assert StripListeners(ls, ids)[0] != ls[0];
    }
  }

  lemma {:induction false} SpecDroppedIff(s: Spec, ids: set<string>)
    ensures DroppedFromSpec(s.inbounds, ids) > 0 <==> StripSpec(s, ids) != s
  {
    SpecInboundsDroppedIff(s.inbounds, ids);
  }

  lemma SpecInboundsDroppedIff(ins: seq<Inbound>, ids: set<string>)
    ensures DroppedFromSpec(ins, ids) > 0 <==> StripInbounds(ins, ids) != ins
  {
    hide StripUsers;
    if DroppedFromSpec(ins, ids) > 0 {
      var k := SomeInboundShrank(ins, ids);
      assert StripInbounds(ins, ids)[k] != ins[k];
    } else {
      hide DroppedFromSpec;
      forall k | 0 <= k < |ins| ensures StripInbounds(ins, ids)[k] == ins[k] { NoInboundShrank(ins, ids, k); }
    }
  }

  lemma {:induction false} SomeInboundShrank(ins: seq<Inbound>, ids: set<string>) returns (k: nat)
    requires DroppedFromSpec(ins, ids) > 0
    ensures k < |ins| && StripUsers(ins[k].users, ids) != ins[k].users
    decreases |ins|
  {
    hide StripUsers;
    if |StripUsers(ins[0].users, ids)| != |ins[0].users| { return 0; }
    k := SomeInboundShrank(ins[1..], ids);
    k := k + 1;
  }

  lemma {:induction false} NoInboundShrank(ins: seq<Inbound>, ids: set<string>, k: nat)
    requires DroppedFromSpec(ins, ids) == 0 && k < |ins|
    ensures StripUsers(ins[k].users, ids) == ins[k].users
  {
    if k == 0 { NoneFilteredOut(UserKept(ids), ins[0].users); } else { NoInboundShrank(ins[1..], ids, k - 1); }
  }

  // ------------------------------------------------------------------ stale applies

  predicate Revokes(e: Event) { e.Revoke? && NormalizeIdentifiers(e.names) != {} }

  predicate Claims(e: Event, t: nat) { (e.Take? || e.Direct?) && e.thread == t }

  /** Either the thread has given the queued apply up, or it still carries the generation `g`. */
  predicate Carries(s: System, t: nat, g: nat) {
    t !in s.tasks || (s.tasks[t].Apply? && s.tasks[t].generation == Some(g))
  }

  lemma StepCountsRevokes(s: System, t: nat, g: nat, e: Event)
    requires Carries(s, t, g) && !Claims(e, t)
    ensures Carries(Step(s, e), t, g) && Step(s, e).m.generation >= s.m.generation
    ensures Revokes(e) ==> Step(s, e).m.generation > s.m.generation
  {
  }

  lemma {:induction false} GenerationCountsRevokes(s: System, t: nat, g: nat, es: seq<Event>)
    requires Carries(s, t, g)
    requires forall k :: 0 <= k < |es| ==> !Claims(es[k], t)
    ensures Carries(Exec(s, es), t, g) && Exec(s, es).m.generation >= s.m.generation
    ensures (exists k :: 0 <= k < |es| && Revokes(es[k])) ==> Exec(s, es).m.generation > s.m.generation
    decreases |es|
  {
    if es != [] {
      hide Step, Carries, Claims, Revokes;
      StepCountsRevokes(s, t, g, es[0]);
      assert forall k :: 0 <= k < |es| - 1 ==> es[1..][k] == es[k + 1];
      GenerationCountsRevokes(Step(s, es[0]), t, g, es[1..]);
      if k :| 0 <= k < |es| && Revokes(es[k]) && !Revokes(es[0]) {
        assert Revokes(es[1..][k - 1]);
      }
    }
  }

  /** A queued apply taken before a revocation writes nothing after it. */
  lemma StaleApplyNeverWrites(s: System, t: nat, mid: seq<Event>)
    requires t !in s.tasks && s.m.pending.Some?
    requires forall k :: 0 <= k < |mid| ==> !Claims(mid[k], t)
    requires exists k :: 0 <= k < |mid| && Revokes(mid[k])
    ensures var before := Exec(Step(s, Take(t)), mid);
            Step(before, Write(t)).m == before.m
  {
    GenerationCountsRevokes(Step(s, Take(t)), t, s.m.generation, mid);
  }

  /** And one that wrote before the revocation is given up at its second look at the generation: it
      neither keeps nor restarts the engine. */
  lemma OvertakenApplyGivesUp(s: System, t: nat, mid: seq<Event>)
    requires t !in s.tasks && s.m.pending.Some?
    requires forall k :: 0 <= k < |mid| ==> !Claims(mid[k], t)
    requires exists k :: 0 <= k < |mid| && Revokes(mid[k])
    ensures var before := Exec(Step(s, Take(t)), mid);
            var after := Step(before, Settle(t));
            && after.m == before.m && after.starts == before.starts
            && (At(before, t, Checked) ==> t !in after.tasks)
  {
    GenerationCountsRevokes(Step(s, Take(t)), t, s.m.generation, mid);
    hide Exec, Revokes;
  }

  /** The write puts on disk exactly the spec's users that no revoked identifier matches, with their
      own names and secrets, in order. */
  lemma WriteServesExactlyTheUnrevoked(m: Manager, spec: Spec, k: nat, e: Entry)
    requires k < |spec.inbounds|
    ensures var served := AfterWrite(m, spec).disk.value.inbounds;
            k < |served| &&
            (e in served[k].users <==>
             exists u :: u in spec.inbounds[k].users && !UserMatches(u, m.revoked) &&
                         RenderUser(spec.inbounds[k].kind, u) == e)
    ensures FileOf(AfterWrite(m, spec).disk.value, spec, m.revoked, m.v2rayApi)
  {
    RenderedFileIs(spec, m.revoked, m.v2rayApi);
    hide FileOf;
    var kept := StripUsers(spec.inbounds[k].users, m.revoked);
    var kind := spec.inbounds[k].kind;
    var users := AfterWrite(m, spec).disk.value.inbounds[k].users;
    assert users == RenderUsers(kind, kept);
    if e in users {
      var n :| 0 <= n < |users| && users[n] == e;
      assert kept[n] in kept && RenderUser(kind, kept[n]) == e;
    }
    if u :| u in spec.inbounds[k].users && !UserMatches(u, m.revoked) && RenderUser(kind, u) == e {
      assert u in kept;
      var n :| 0 <= n < |kept| && kept[n] == u;
      assert users[n] == e;
    }
  }

  // ------------------------------------------------------------------ one undisturbed apply

  function ApplyResult(m: Manager, spec: Spec, generation: Option<nat>, ok: bool): Manager {
    if generation.Some? && generation.value != m.generation then m
    else
      var w := AfterWrite(m, spec);
      if spec.inbounds == [] then AfterStop(w)
      else if !ok || (w.noChange && w.engine.Some?) then w
      else AfterRestart(w)
  }

  lemma {:induction false} ExecAppend(s: System, es: seq<Event>, fs: seq<Event>)
    ensures Exec(s, es + fs) == Exec(Exec(s, es), fs)
    decreases |es|
  {
    if es == [] {
      assert es + fs == fs;
    } else {
      assert (es + fs)[1..] == es[1..] + fs;
      ExecAppend(Step(s, es[0]), es[1..], fs);
    }
  }

  lemma ExecTwo(s: System, a: Event, b: Event)
    ensures Exec(s, [a, b]) == Step(Step(s, a), b)
  {
    assert [a, b][1..] == [b] && [b][1..] == [];
    assert Exec(Step(s, a), [b]) == Exec(Step(Step(s, a), b), []);
  }

  /** The four blocks of an apply, run without interruption, give `ApplyResult`. */
  lemma UndisturbedApply(s: System, t: nat, ok: bool)
    requires At(s, t, Begun)
    ensures Exec(s, [Write(t), Check(t, ok), Settle(t), Finish(t)]).m
         == ApplyResult(s.m, s.tasks[t].spec, s.tasks[t].generation, ok)
  {
    ExecTwo(s, Write(t), Check(t, ok));
    var w := Step(s, Write(t));
    var c := Step(w, Check(t, ok));
    var d := Step(c, Settle(t));
    ExecTwo(c, Settle(t), Finish(t));
    ExecAppend(s, [Write(t), Check(t, ok)], [Settle(t), Finish(t)]);
    assert [Write(t), Check(t, ok)] + [Settle(t), Finish(t)] == [Write(t), Check(t, ok), Settle(t), Finish(t)];
    if Stale(s, t) {
      assert t !in w.tasks && c == w && d == w;
    } else {
      WrittenTask(s, t);
      SettledResult(w, t, ok);
    }
  }

  lemma WrittenTask(s: System, t: nat)
    requires At(s, t, Begun) && !Stale(s, t)
    ensures var w := WriteStep(s, t);
            w.m == AfterWrite(s.m, s.tasks[t].spec) && At(w, t, Written) && !Stale(w, t) &&
            (w.tasks[t].spec.inbounds == [] <==> s.tasks[t].spec.inbounds == [])
  {
    assert |StripSpec(s.tasks[t].spec, s.m.revoked).inbounds| == |s.tasks[t].spec.inbounds|;
  }

  lemma SettledResult(w: System, t: nat, ok: bool)
    requires At(w, t, Written) && !Stale(w, t)
    ensures FinishStep(SettleStep(CheckStep(w, t, ok), t), t).m
         == if w.tasks[t].spec.inbounds == [] then AfterStop(w.m)
            else if !ok || (w.m.noChange && w.m.engine.Some?) then w.m else AfterRestart(w.m)
  {
    var c := CheckStep(w, t, ok);
    if w.tasks[t].spec.inbounds == [] || !ok {
      assert t !in c.tasks;
    } else {
      assert At(c, t, Checked) && !Stale(c, t);
    }
  }

  // ------------------------------------------------------------------ the code: lists filtered in loops

  method KeepUsers(users: seq<User>, ids: set<string>) returns (keep: seq<User>, removed: nat)
    ensures keep == StripUsers(users, ids) && removed == |users| - |keep|
  {
    keep, removed := [], 0;
    for k := 0 to |users|
      invariant keep == StripUsers(users[..k], ids) && removed == k - |keep|
    {
      assert users[..k + 1] == users[..k] + [users[k]];
      FilterSnoc(UserKept(ids), users[..k], users[k]);
      if UserMatches(users[k], ids) { removed := removed + 1; } else { keep := keep + [users[k]]; }
    }
    assert users[..|users|] == users;
  }

  method KeepEntries(users: seq<Entry>, ids: set<string>) returns (keep: seq<Entry>, removed: nat)
    ensures keep == StripEntries(users, ids) && removed == |users| - |keep|
  {
    keep, removed := [], 0;
    for k := 0 to |users|
      invariant keep == StripEntries(users[..k], ids) && removed == k - |keep|
    {
      assert users[..k + 1] == users[..k] + [users[k]];
      FilterSnoc(EntryKept(ids), users[..k], users[k]);
      if EntryMatches(users[k], ids) { removed := removed + 1; } else { keep := keep + [users[k]]; }
    }
    assert users[..|users|] == users;
  }

  method KeepNames(names: seq<string>, ids: set<string>) returns (keep: seq<string>, removed: nat)
    ensures keep == StripNames(names, ids) && removed == |names| - |keep|
  {
    keep, removed := [], 0;
    for k := 0 to |names|
      invariant keep == StripNames(names[..k], ids) && removed == k - |keep|
    {
      assert names[..k + 1] == names[..k] + [names[k]];
      FilterSnoc(NameKept(ids), names[..k], names[k]);
      if NameMatches(names[k], ids) { removed := removed + 1; } else { keep := keep + [names[k]]; }
    }
    assert names[..|names|] == names;
  }

  lemma {:induction false} DroppedFromSpecSnoc(inbounds: seq<Inbound>, i: Inbound, ids: set<string>)
    ensures DroppedFromSpec(inbounds + [i], ids)
         == DroppedFromSpec(inbounds, ids) + |i.users| - |StripUsers(i.users, ids)|
  {
    if inbounds == [] {
      assert [i][1..] == [] && inbounds + [i] == [i];
    } else {
      assert (inbounds + [i])[1..] == inbounds[1..] + [i];
      DroppedFromSpecSnoc(inbounds[1..], i, ids);
    }
  }

  lemma {:induction false} DroppedFromListenersSnoc(ls: seq<Listener>, l: Listener, ids: set<string>)
    ensures DroppedFromListeners(ls + [l], ids)
         == DroppedFromListeners(ls, ids) + |l.users| - |StripEntries(l.users, ids)|
  {
    if ls == [] {
      assert [l][1..] == [] && ls + [l] == [l];
    } else {
      assert (ls + [l])[1..] == ls[1..] + [l];
      DroppedFromListenersSnoc(ls[1..], l, ids);
    }
  }

  lemma {:induction false} NoneFilteredOut<T(!new)>(p: T -> bool, s: seq<T>)
    requires |Filter(p, s)| == |s|
    ensures Filter(p, s) == s
  {
    if s != [] {
      NoneFilteredOut(p, s[1..]);
      assert s == [s[0]] + s[1..];
    }
  }

  lemma {:induction false} NothingDroppedAt(ls: seq<Listener>, ids: set<string>, k: nat)
    requires DroppedFromListeners(ls, ids) == 0 && k < |ls|
    ensures StripEntries(ls[k].users, ids) == ls[k].users
  {
    if k == 0 { NoneFilteredOut(EntryKept(ids), ls[0].users); } else { NothingDroppedAt(ls[1..], ids, k - 1); }
  }

  lemma NothingDropped(ls: seq<Listener>, ids: set<string>)
    requires DroppedFromListeners(ls, ids) == 0
    ensures StripListeners(ls, ids) == ls
  {
    hide DroppedFromListeners;
    forall k | 0 <= k < |ls| ensures StripListeners(ls, ids)[k] == ls[k] { NothingDroppedAt(ls, ids, k); }
  }

  method StripInboundsOf(spec: Spec, ids: set<string>) returns (kept: Spec, removed: nat)
    ensures kept == StripSpec(spec, ids) && removed == DroppedFromSpec(spec.inbounds, ids)
  {
    var out: seq<Inbound> := [];
    removed := 0;
    for k := 0 to |spec.inbounds|
      invariant out == StripInbounds(spec.inbounds[..k], ids)
      invariant removed == DroppedFromSpec(spec.inbounds[..k], ids)
    {
      assert spec.inbounds[..k + 1] == spec.inbounds[..k] + [spec.inbounds[k]];
      DroppedFromSpecSnoc(spec.inbounds[..k], spec.inbounds[k], ids);
      var keep, n := KeepUsers(spec.inbounds[k].users, ids);
      out := out + [spec.inbounds[k].(users := keep)];
      removed := removed + n;
    }
    assert spec.inbounds[..|spec.inbounds|] == spec.inbounds;
    kept := spec.(inbounds := out);
  }

  method StripListenersOf(c: Config, ids: set<string>) returns (out: seq<Listener>, removed: nat)
    ensures out == StripListeners(c.inbounds, ids) && removed == DroppedFromListeners(c.inbounds, ids)
  {
    out, removed := [], 0;
    for k := 0 to |c.inbounds|
      invariant out == StripListeners(c.inbounds[..k], ids)
      invariant removed == DroppedFromListeners(c.inbounds[..k], ids)
    {
      assert c.inbounds[..k + 1] == c.inbounds[..k] + [c.inbounds[k]];
      DroppedFromListenersSnoc(c.inbounds[..k], c.inbounds[k], ids);
      var keep, n := KeepEntries(c.inbounds[k].users, ids);
      out := out + [c.inbounds[k].(users := keep)];
      removed := removed + n;
    }
    assert c.inbounds[..|c.inbounds|] == c.inbounds;
  }

  lemma SplitSize(a: set<string>, b: set<string>)
    ensures |a| == |a - b| + |a * b|
  {
    assert a == (a - b) + (a * b);
  }

  datatype Outcome = Superseded | EngineStopped | ConfigRefused | SessionsKept | EngineRestarted

  /** The manager object.  Each method is one lock block, or a whole undisturbed operation,
      and is specified by the state function of that block. */
  class SingBoxManager {
    const v2rayApi: bool
    var disk: Option<Config>
    var pendingSpec: Option<Spec>
    var pendingRestart: bool
    var applyGeneration: nat
    var revokedNames: set<string>
    var configUnchanged: bool
    var engine: Option<Engine>

    function State(): Manager
      reads this
    {
      Manager(v2rayApi, disk, pendingSpec, pendingRestart, applyGeneration, revokedNames, configUnchanged, engine)
    }

    constructor (v2rayApi: bool, disk: Option<Config>, orphan: Option<Config>)
      ensures State() == Manager(v2rayApi, disk, None, false, 0, {}, false,
                                 if orphan.Some? then Some(Engine(orphan.value, false)) else None)
      ensures DiskClean(State())
    {
      this.v2rayApi, this.disk := v2rayApi, disk;
      pendingSpec, pendingRestart, applyGeneration := None, false, 0;
      revokedNames, configUnchanged := {}, false;
      engine := if orphan.Some? then Some(Engine(orphan.value, false)) else None;
    }

    method ScheduleApply(spec: Spec)
      modifies this
      ensures State() == old(State()).(pending := Some(spec))
    {
      pendingSpec := Some(spec);
    }

    /** The block at the head of the worker loop. */
    method TakePending() returns (spec: Option<Spec>, restartOnly: bool, generation: nat)
      modifies this
      ensures State() == old(State()).(pending := None, pendingRestart := false)
      ensures spec == old(pendingSpec) && restartOnly == old(pendingRestart) && generation == applyGeneration
    {
      spec, restartOnly, generation := pendingSpec, pendingRestart, applyGeneration;
      pendingSpec, pendingRestart := None, false;
    }

    method StripPendingSpec(ids: set<string>) returns (removed: nat)
      modifies this`pendingSpec
      ensures pendingSpec == if old(pendingSpec).Some? then Some(StripSpec(old(pendingSpec).value, ids)) else None
      ensures removed == if old(pendingSpec).Some? then DroppedFromSpec(old(pendingSpec).value.inbounds, ids) else 0
    {
      removed := 0;
      if pendingSpec.Some? {
        var kept, n := StripInboundsOf(pendingSpec.value, ids);
        pendingSpec, removed := Some(kept), n;
      }
    }

    /** The file is rewritten only when something was removed from it. */
    method StripUsersFromConfig(ids: set<string>) returns (removed: nat)
      modifies this`disk
      ensures disk == if old(disk).Some? then Some(StripConfig(old(disk).value, ids)) else None
      ensures removed == if old(disk).Some? then DroppedFromConfig(old(disk).value, ids) else 0
    {
      removed := 0;
      if disk.Some? {
        var out, n := StripListenersOf(disk.value, ids);
        var stats := disk.value.stats;
        removed := n;
        if stats.Some? {
          var keep, r := KeepNames(stats.value.users, ids);
          if r == 0 { NoneFilteredOut(NameKept(ids), stats.value.users); }
          stats, removed := Some(stats.value.(users := keep)), removed + r;
        }
        if removed > 0 {
          disk := Some(disk.value.(inbounds := out, stats := stats));
        } else {
          NothingDropped(disk.value.inbounds, ids);
        }
      }
    }

    method RevokeUsers(names: seq<string>) returns (removed: nat)
      modifies this
      ensures State() == AfterRevoke(old(State()), NormalizeIdentifiers(names))
      ensures removed == if NormalizeIdentifiers(names) == {} then 0
                         else Dropped(old(State()), NormalizeIdentifiers(names))
      ensures old(DiskClean(State())) ==> DiskClean(State())
      ensures forall x :: x in revokedNames <==> x in old(revokedNames) || Given(names, x)
      ensures old(disk).Some? ==> disk.Some? && WithoutNamed(old(disk).value, disk.value, names)
      ensures old(pendingSpec).Some? ==> pendingSpec.Some? && SpecWithoutNamed(old(pendingSpec).value, pendingSpec.value, names)
    {
      RevocationMeans(State(), names);
      hide Given, WithoutNamed, SpecWithoutNamed, StripSpec, StripConfig, DiskClean, DroppedFromSpec, DroppedFromConfig, NormalizeIdentifiers;
      var ids := NormalizeIdentifiers(names);
      RevokeKeepsDiskClean(State(), ids);
      removed := 0;
      if ids != {} {
        revokedNames := revokedNames + ids;
        applyGeneration := applyGeneration + 1;
        removed := StripPendingSpec(ids);
        var fromDisk := StripUsersFromConfig(ids);
        removed := removed + fromDisk;
        if removed > 0 { pendingRestart := true; }
      }
    }

    method UnrevokeUsers(names: seq<string>) returns (cleared: nat)
      modifies this`revokedNames
      ensures State() == AfterUnrevoke(old(State()), NormalizeIdentifiers(names))
      ensures cleared == |old(revokedNames) * NormalizeIdentifiers(names)|
      ensures forall x :: x in revokedNames <==> x in old(revokedNames) && !Given(names, x)
      ensures old(DiskClean(State())) ==> DiskClean(State())
    {
      var ids := NormalizeIdentifiers(names);
      RevokeKeepsDiskClean(State(), ids);
      SplitSize(revokedNames, ids);
      forall x ensures x in ids <==> Given(names, x) { NormalizedIff(names, x); }
      var before := |revokedNames|;
      revokedNames := revokedNames - ids;
      cleared := before - |revokedNames|;
    }

    /** The first block of an apply; `go` is false when a revocation has superseded it. */
    method WriteSpec(spec: Spec, generation: Option<nat>) returns (go: bool)
      modifies this
      ensures go <==> generation == None || generation == Some(old(applyGeneration))
      ensures State() == if go then AfterWrite(old(State()), spec) else old(State())
      ensures go ==> disk.Some? && FileOf(disk.value, spec, revokedNames, v2rayApi)
      ensures old(DiskClean(State())) ==> DiskClean(State())
    {
      if generation.Some? && generation.value != applyGeneration { return false; }
      WriteKeepsDiskClean(State(), spec);
      RenderedFileIs(spec, revokedNames, v2rayApi);
      hide FileOf, Fingerprint, RenderConfig;
      configUnchanged := false;
      var kept, _ := StripInboundsOf(spec, revokedNames);
      var cfg := RenderConfig(kept, v2rayApi);
      configUnchanged := disk.Some? && Fingerprint(cfg) == Fingerprint(disk.value);
      disk := Some(cfg);
      return true;
    }

    method Stop()
      modifies this`engine
      ensures State() == AfterStop(old(State()))
    {
      if engine.Some? && engine.value.owned { engine := None; }
    }

    method Restart()
      modifies this`engine
      ensures State() == AfterRestart(old(State()))
    {
      Stop();
      engine := if disk.Some? then Some(Engine(disk.value, true)) else None;
    }

    /** A whole apply that no other thread interrupts; `passes` is the verdict of `sing-box check`. */
    method Apply(spec: Spec, generation: Option<nat>, passes: Config -> bool) returns (outcome: Outcome)
      modifies this
      ensures var ok := passes(Rendered(old(State()), spec));
              State() == ApplyResult(old(State()), spec, generation, ok) &&
              (outcome == ConfigRefused ==> !ok)
      ensures outcome != Superseded ==> disk.Some? && FileOf(disk.value, spec, revokedNames, v2rayApi)
      ensures outcome == EngineRestarted ==> engine.Some? && disk.Some? && engine.value.config == disk.value
      ensures outcome == SessionsKept ==> engine == old(engine) && disk.Some? && old(disk).Some? &&
                                          SameUpToOrder(disk.value, old(disk).value)
    {
      hide FileOf;
      var go := WriteSpec(spec, generation);
      if !go { return Superseded; }
      if spec.inbounds == [] {
        Stop();
        return EngineStopped;
      }
      if !passes(disk.value) { return ConfigRefused; }
      if configUnchanged && engine.Some? {
        FingerprintIffSame(disk.value, old(disk).value);
        return SessionsKept;
      }
      Restart();
      return EngineRestarted;
    }
  }
}
