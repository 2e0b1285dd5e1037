/** The Redis lease protocol that elects one leader among several panel instances.

    Instances share one expiring key.  Each runs SET-NX, then GET, then SET as separate
    commands, and copies the outcome into its own leader flag in a further step, so every
    interleaving of those steps with the others' and with the clock is a run. */
module LeaderElection {
  import opened Base

  type Id = string

  /** Key lifetime, in milliseconds, for a configured TTL in seconds. */
  function LifetimeMs(ttl: int): int { Max(ttl, 2) * 1000 }

  /** Pause between two rounds of the renewal loop, in milliseconds. */
  function IntervalMs(ttl: int): int { Max(ttl / 3, 1) * 1000 }

  datatype Lease = Lease(owner: Id, expires: int)

  /** Where an instance stands in its current round: before SET-NX, after a refused SET-NX,
      after a GET that returned its own id, or with an outcome not yet copied to the flag. */
  datatype Phase = Waiting | Refused | Mine | Decided(leader: bool)

  /** `flag` is true from import on; `started` tells that the first round has set it. */
  datatype Instance = Instance(started: bool, flag: bool, phase: Phase)

  datatype Cluster = Cluster(now: int, lease: Option<Lease>, instances: map<Id, Instance>)

  datatype Event =
    | SetNx(id: Id)
    | Get(id: Id)
    | Set(id: Id)
    | Raise(id: Id, applied: bool)  // the client raises; the command may have reached Redis
    | WriteFlag(id: Id)
    | Tick(now: int)

  /** The key as Redis shows it: an expired key is absent. */
  function Owner(c: Cluster): Option<Id> {
    if c.lease.Some? && c.now < c.lease.value.expires then Some(c.lease.value.owner) else None
  }

  function WithPhase(c: Cluster, i: Id, p: Phase): Cluster
    requires i in c.instances
  {
    c.(instances := c.instances[i := c.instances[i].(phase := p)])
  }

  function Granted(c: Cluster, ttl: int, i: Id): Cluster {
    c.(lease := Some(Lease(i, c.now + LifetimeMs(ttl))))
  }

  /** One step.  A step that is not enabled leaves the cluster as it is. */
  function Step(c: Cluster, ttl: int, e: Event): Cluster {
    match e
    case Tick(t) => if c.now <= t then c.(now := t) else c
    case SetNx(i) =>
      if i !in c.instances || c.instances[i].phase != Waiting then c
      else if Owner(c) == None then WithPhase(Granted(c, ttl, i), i, Decided(true))
      else WithPhase(c, i, Refused)
    case Get(i) =>
      if i !in c.instances || c.instances[i].phase != Refused then c
      else WithPhase(c, i, if Owner(c) == Some(i) then Mine else Decided(false))
    case Set(i) =>
      if i !in c.instances || c.instances[i].phase != Mine then c
      else WithPhase(Granted(c, ttl, i), i, Decided(true))
    case Raise(i, applied) =>
      if i !in c.instances || c.instances[i].phase.Decided? then c
      else
        var p := c.instances[i].phase;
        var wrote := applied && (p == Mine || (p == Waiting && Owner(c) == None));
        WithPhase(if wrote then Granted(c, ttl, i) else c, i, Decided(false))
    case WriteFlag(i) =>
      if i !in c.instances || !c.instances[i].phase.Decided? then c
      else c.(instances := c.instances[i := Instance(true, c.instances[i].phase.leader, Waiting)])
  }

  function Exec(c: Cluster, ttl: int, es: seq<Event>): Cluster
    decreases |es|
  {
    if es == [] then c else Exec(Step(c, ttl, es[0]), ttl, es[1..])
  }

  /** What `is_leader` answers once `start` has returned. */
  predicate Leads(c: Cluster, i: Id) {
    i in c.instances && c.instances[i].started && c.instances[i].flag
  }

  ghost predicate AtMostOneLeader(c: Cluster) {
    forall i, j :: Leads(c, i) && Leads(c, j) ==> i == j
  }

  /** `i` acts, or is about to act, as the key's owner: it leads, or has read its own id and
      will overwrite the key, or has a positive outcome to copy into its flag. */
  predicate Relies(c: Cluster, i: Id) {
    Leads(c, i) || (i in c.instances && c.instances[i].phase in {Mine, Decided(true)})
  }

  /** The clock does not pass the key's expiry while its owner relies on it. */
  ghost predicate Timely(c: Cluster, e: Event) {
    e.Tick? && c.lease.Some? && Relies(c, c.lease.value.owner) ==> e.now < c.lease.value.expires
  }

  ghost predicate TimelyRun(c: Cluster, ttl: int, es: seq<Event>)
    decreases |es|
  {
    es == [] || (Timely(c, es[0]) && TimelyRun(Step(c, ttl, es[0]), ttl, es[1..]))
  }

  /** Before any `start`: a lease may be left over from an earlier life of some instance. */
  ghost predicate Initial(c: Cluster) {
    forall i :: i in c.instances ==> !c.instances[i].started && c.instances[i].phase == Waiting
  }

  /** Whoever relies on the key is its live owner. */
  ghost predicate Inv(c: Cluster) {
    forall i :: Relies(c, i) ==> Owner(c) == Some(i)
  }

  lemma StepKeepsInv(c: Cluster, ttl: int, e: Event)
    requires Inv(c) && Timely(c, e)
    ensures Inv(Step(c, ttl, e))
  {
    var d := Step(c, ttl, e);
    forall i | Relies(d, i) ensures Owner(d) == Some(i) {
      if e.Tick? || i != e.id { assert Relies(c, i); }
      if !e.Tick? && e.id in c.instances { assert Relies(c, e.id) ==> Owner(c) == Some(e.id); }
    }
  }

  lemma {:induction false} RunKeepsInv(c: Cluster, ttl: int, es: seq<Event>)
    requires Inv(c) && TimelyRun(c, ttl, es)
    ensures Inv(Exec(c, ttl, es))
    decreases |es|
  {
    if es != [] {
      StepKeepsInv(c, ttl, es[0]);
      RunKeepsInv(Step(c, ttl, es[0]), ttl, es[1..]);
    }
  }

  /** Mutual exclusion, over every interleaving of any number of instances. */
  lemma MutualExclusion(c: Cluster, ttl: int, es: seq<Event>)
    requires Initial(c) && TimelyRun(c, ttl, es)
    ensures AtMostOneLeader(Exec(c, ttl, es))
  {
    RunKeepsInv(c, ttl, es);
    var d := Exec(c, ttl, es);
    forall i, j | Leads(d, i) && Leads(d, j) ensures i == j {
      assert Relies(d, i) && Relies(d, j);
    }
  }

  /** No step of the run sets the key. */
  ghost predicate KeyUntouched(c: Cluster, ttl: int, es: seq<Event>)
    decreases |es|
  {
    es == [] || (Step(c, ttl, es[0]).lease == c.lease && KeyUntouched(Step(c, ttl, es[0]), ttl, es[1..]))
  }

  lemma {:induction false} UntouchedKeyStays(c: Cluster, ttl: int, es: seq<Event>)
    requires KeyUntouched(c, ttl, es)
    ensures Exec(c, ttl, es).lease == c.lease
    decreases |es|
  {
    if es != [] {
      hide Step;
      UntouchedKeyStays(Step(c, ttl, es[0]), ttl, es[1..]);
    }
  }

  /** A command that raises after it reached Redis leaves the key to an instance that does not lead:
      the others wait it out, and it finds the key its own at its next round. */
  lemma RaisedSetKeepsTheKey(c: Cluster, ttl: int, i: Id)
    requires i in c.instances && c.instances[i].phase == Waiting && Owner(c) == None
    ensures var d := Step(Step(c, ttl, Raise(i, true)), ttl, WriteFlag(i));
            && Owner(d) == Some(i) && !Leads(d, i)
            && Step(Step(d, ttl, SetNx(i)), ttl, Get(i)).instances[i].phase == Mine
    ensures Owner(Step(c, ttl, Raise(i, false))) == None
  {
  }

  /** How long a key that someone set lasts, if no one sets it again: whoever asks for it gets it
      from the configured time to live on, which counts as at least two seconds, and not before. */
  lemma SilentLeaseIsTakenOver(c: Cluster, ttl: int, e: Event, es: seq<Event>, j: Id)
    requires var d := Step(c, ttl, e); d.lease.Some? && d.lease != c.lease && KeyUntouched(d, ttl, es)
    requires var f := Exec(Step(c, ttl, e), ttl, es); j in f.instances && f.instances[j].phase == Waiting
    ensures var f := Exec(Step(c, ttl, e), ttl, es);
            var g := Step(f, ttl, SetNx(j));
            && j in g.instances
            && (g.instances[j].phase == Decided(true) <==> c.now + 1000 * (if ttl < 2 then 2 else ttl) <= f.now)
            && (g.instances[j].phase == Decided(true) ==> Owner(g) == Some(j))
  {
    UntouchedKeyStays(Step(c, ttl, e), ttl, es);
    hide Exec, KeyUntouched;
    assert Step(c, ttl, e).lease.value.expires == c.now + LifetimeMs(ttl);
  }

  /** The steps by which `j` takes an expired key and `i`, still relying on it, joins it as leader. */
  function Takeover(c: Cluster, i: Id, j: Id): seq<Event> {
    [Raise(j, false), WriteFlag(j), SetNx(j), WriteFlag(j)] +
    (if Leads(c, i) then [] else [Set(i), WriteFlag(i)])
  }

  ghost predicate TickFree(es: seq<Event>) {
    forall k :: 0 <= k < |es| ==> !es[k].Tick?
  }

  lemma {:induction false} ExecAppend(c: Cluster, ttl: int, es: seq<Event>, fs: seq<Event>)
    ensures Exec(c, ttl, es + fs) == Exec(Exec(c, ttl, es), ttl, fs)
    decreases |es|
  {
    if es == [] {
      assert es + fs == fs;
    } else {
      assert (es + fs)[1..] == es[1..] + fs;
      ExecAppend(Step(c, ttl, es[0]), ttl, es[1..], fs);
    }
  }

  lemma ExecTwo(c: Cluster, ttl: int, a: Event, b: Event)
    ensures Exec(c, ttl, [a, b]) == Step(Step(c, ttl, a), ttl, b)
  {
    assert [a, b][1..] == [b] && [b][1..] == [];
    assert Exec(Step(c, ttl, a), ttl, [b]) == Exec(Step(Step(c, ttl, a), ttl, b), ttl, []);
  }

  /** The rival's part: it ends as leader and `i` is left as it was. */
  lemma RivalTakes(c: Cluster, ttl: int, i: Id, j: Id)
    requires i in c.instances && j in c.instances && i != j
    requires Owner(c) == None && !Relies(c, j)
    ensures var d := Exec(c, ttl, [Raise(j, false), WriteFlag(j), SetNx(j), WriteFlag(j)]);
            Leads(d, j) && i in d.instances && d.instances[i] == c.instances[i]
  {
    var c1 := Step(c, ttl, Raise(j, false));
    var c2 := Step(c1, ttl, WriteFlag(j));
    var c3 := Step(c2, ttl, SetNx(j));
    var c4 := Step(c3, ttl, WriteFlag(j));
    assert c2.instances[j] == Instance(true, false, Waiting) && Owner(c2) == None;
    assert Leads(c4, j);
    ExecTwo(c, ttl, Raise(j, false), WriteFlag(j));
    ExecTwo(c2, ttl, SetNx(j), WriteFlag(j));
    ExecAppend(c, ttl, [Raise(j, false), WriteFlag(j)], [SetNx(j), WriteFlag(j)]);
    assert [Raise(j, false), WriteFlag(j)] + [SetNx(j), WriteFlag(j)]
        == [Raise(j, false), WriteFlag(j), SetNx(j), WriteFlag(j)];
  }

  /** A clock step past the expiry of a key that is relied on lets a second leader arise,
      with no further clock step, as soon as one other instance takes part. */
  lemma LateTickAdmitsTwoLeaders(c: Cluster, ttl: int, t: int, j: Id)
    requires Inv(c) && c.now <= t && !Timely(c, Tick(t))
    requires j in c.instances && j != c.lease.value.owner
    ensures var i := c.lease.value.owner;
            var es := Takeover(c, i, j);
            TickFree(es) && !AtMostOneLeader(Exec(Step(c, ttl, Tick(t)), ttl, es))
  {
    var i := c.lease.value.owner;
    var d := Step(c, ttl, Tick(t));
    assert Relies(c, i) && !Relies(c, j);
    var rival := [Raise(j, false), WriteFlag(j), SetNx(j), WriteFlag(j)];
    RivalTakes(d, ttl, i, j);
    var e := Exec(d, ttl, rival);
    if Leads(c, i) {
      assert Takeover(c, i, j) == rival;
      assert Leads(e, i) && Leads(e, j);
    } else {
      ExecAppend(d, ttl, rival, [Set(i), WriteFlag(i)]);
      var e1 := Step(e, ttl, Set(i));
      var e2 := Step(e1, ttl, WriteFlag(i));
      ExecTwo(e, ttl, Set(i), WriteFlag(i));
      assert Leads(e2, i) && Leads(e2, j);
    }
  }

  lemma {:induction false} TickFreeIsTimely(c: Cluster, ttl: int, es: seq<Event>)
    requires TickFree(es)
    ensures TimelyRun(c, ttl, es)
    decreases |es|
  {
    if es != [] { TickFreeIsTimely(Step(c, ttl, es[0]), ttl, es[1..]); }
  }

  /** Exactly the timely clock steps are safe: with at least two instances, every way to go on
      after the step keeps a single leader if and only if the step is timely. */
  lemma TimelyIffSafe(c: Cluster, ttl: int, t: int, i: Id, j: Id)
    requires Inv(c) && c.now <= t
    requires i in c.instances && j in c.instances && i != j
    ensures Timely(c, Tick(t)) <==>
            (forall es: seq<Event> :: TickFree(es) ==>
               AtMostOneLeader(Exec(Step(c, ttl, Tick(t)), ttl, es)))
  {
    var d := Step(c, ttl, Tick(t));
    if Timely(c, Tick(t)) {
      StepKeepsInv(c, ttl, Tick(t));
      forall es: seq<Event> | TickFree(es) ensures AtMostOneLeader(Exec(d, ttl, es)) {
        TickFreeIsTimely(d, ttl, es);
        RunKeepsInv(d, ttl, es);
        var e := Exec(d, ttl, es);
        forall x, y | Leads(e, x) && Leads(e, y) ensures x == y { assert Relies(e, x) && Relies(e, y); }
      }
    } else {
      var k := if i == c.lease.value.owner then j else i;
      LateTickAdmitsTwoLeaders(c, ttl, t, k);
    }
  }

  /** For every configured TTL the loop wakes at least one second before the key it set expires. */
  lemma IntervalBelowLifetime(ttl: int)
    ensures 0 < IntervalMs(ttl) && IntervalMs(ttl) + 1000 <= LifetimeMs(ttl)
    ensures ttl >= 3 ==> 3 * IntervalMs(ttl) <= 1000 * ttl < 3 * IntervalMs(ttl) + 3000
  {
    assert ttl >= 3 ==> ttl / 3 + 1 <= ttl;
  }

  /** Every relying owner sets the key again, or stops relying on it, at most `delay`
      milliseconds after the renewal interval since it last set it has passed. */
  ghost predicate Punctual(c: Cluster, ttl: int, delay: int, e: Event) {
    e.Tick? && c.lease.Some? && Relies(c, c.lease.value.owner) ==>
      e.now <= c.lease.value.expires - LifetimeMs(ttl) + IntervalMs(ttl) + delay
  }

  ghost predicate PunctualRun(c: Cluster, ttl: int, delay: int, es: seq<Event>)
    decreases |es|
  {
    es == [] ||
    (Punctual(c, ttl, delay, es[0]) && PunctualRun(Step(c, ttl, es[0]), ttl, delay, es[1..]))
  }

  lemma {:induction false} PunctualRunIsTimely(c: Cluster, ttl: int, delay: int, es: seq<Event>)
    requires delay < LifetimeMs(ttl) - IntervalMs(ttl) && PunctualRun(c, ttl, delay, es)
    ensures TimelyRun(c, ttl, es)
    decreases |es|
  {
    if es != [] { PunctualRunIsTimely(Step(c, ttl, es[0]), ttl, delay, es[1..]); }
  }

  /** Instances whose rounds are late by less than a second always have at most one leader,
      whatever the configured TTL. */
  lemma PunctualInstancesElectOneLeader(c: Cluster, ttl: int, es: seq<Event>)
    requires Initial(c) && PunctualRun(c, ttl, 999, es)
    ensures AtMostOneLeader(Exec(c, ttl, es))
  {
    IntervalBelowLifetime(ttl);
    PunctualRunIsTimely(c, ttl, 999, es);
    MutualExclusion(c, ttl, es);
  }

  // ---------------------------------------------------------------------------------------
  // The code itself: one shared key, one process object per instance.

  class Redis {
    var lease: Option<Lease>

    constructor ()
      ensures lease == None
    {
      lease := None;
    }

    predicate Live(now: int)
      reads this
    {
      lease.Some? && now < lease.value.expires
    }

    method SetIfAbsent(id: Id, now: int, px: int) returns (ok: bool)
      modifies this
      ensures ok == !old(Live(now))
      ensures lease == if ok then Some(Lease(id, now + px)) else old(lease)
    {
      ok := !Live(now);
      if ok { lease := Some(Lease(id, now + px)); }
    }

    method Read(now: int) returns (owner: Option<Id>)
      ensures owner == if Live(now) then Some(lease.value.owner) else None
    {
      owner := if Live(now) then Some(lease.value.owner) else None;
    }

    method Write(id: Id, now: int, px: int)
      modifies this
      ensures lease == Some(Lease(id, now + px))
    {
      lease := Some(Lease(id, now + px));
    }
  }

  class Process {
    const id: Id
    var isLeader: bool
    var started: bool

    constructor (id: Id)
      ensures this.id == id && isLeader && !started
    {
      this.id, isLeader, started := id, true, false;
    }

    /** The instance as the protocol sees it between two rounds. */
    function Idle(): Instance
      reads this
    {
      Instance(started, isLeader, Waiting)
    }

    /** One undisturbed round at instant `now`: it ends with the lease and outcome that the
        protocol's SET-NX, GET and SET steps produce. */
    method TryAcquireOrRenew(redis: Redis, now: int, ttl: int) returns (leader: bool)
      modifies redis
      ensures var c := Cluster(now, old(redis.lease), map[id := Idle()]);
              var d := Exec(c, ttl, [SetNx(id), Get(id), Set(id)]);
              redis.lease == d.lease && id in d.instances && d.instances[id].phase == Decided(leader)
      ensures leader <==> !old(redis.Live(now)) || old(redis.lease).value.owner == id
      ensures leader ==> redis.lease == Some(Lease(id, now + LifetimeMs(ttl)))
      ensures !leader ==> redis.lease == old(redis.lease)
    {
      ghost var c := Cluster(now, redis.lease, map[id := Idle()]);
      RoundSteps(c, ttl, id);
      leader := redis.SetIfAbsent(id, now, LifetimeMs(ttl));
      if !leader {
        var owner := redis.Read(now);
        if owner == Some(id) {
          redis.Write(id, now, LifetimeMs(ttl));
          leader := true;
        }
      }
    }

    /** One pass of the renewal loop, and `start`'s first attempt: an exception counts as follower. */
    method Round(redis: Redis, now: int, ttl: int, reachable: bool)
      modifies this, redis
      ensures started
      ensures isLeader <==> reachable && (!old(redis.Live(now)) || old(redis.lease).value.owner == id)
      ensures redis.lease == if isLeader then Some(Lease(id, now + LifetimeMs(ttl))) else old(redis.lease)
    {
      var leader := false;
      if reachable { leader := TryAcquireOrRenew(redis, now, ttl); }
      isLeader := leader;
      started := true;
    }

    /** `start` then the renewal loop, undisturbed by others, once per listed instant: the flag
        tells whether the last round reached Redis and found the key free or its own. */
    method RenewLoop(redis: Redis, rounds: seq<(int, bool)>, ttl: int)
      requires |rounds| > 0
      modifies this, redis
      ensures started
      ensures isLeader ==> redis.lease == Some(Lease(id, rounds[|rounds| - 1].0 + LifetimeMs(ttl)))
      ensures !rounds[|rounds| - 1].1 ==> !isLeader
    {
      for k := 0 to |rounds|
        invariant k > 0 ==> started
        invariant k > 0 && isLeader ==> redis.lease == Some(Lease(id, rounds[k - 1].0 + LifetimeMs(ttl)))
        invariant k > 0 && !rounds[k - 1].1 ==> !isLeader
      {
        Round(redis, rounds[k].0, ttl, rounds[k].1);
      }
    }
  }

  /** The three commands of an undisturbed round, in the protocol's terms. */
  lemma RoundSteps(c: Cluster, ttl: int, i: Id)
    requires i in c.instances && c.instances[i].phase == Waiting
    ensures var d := Exec(c, ttl, [SetNx(i), Get(i), Set(i)]);
            var won := Owner(c) == None || Owner(c) == Some(i);
            i in d.instances && d.instances[i].phase == Decided(won) &&
            d.lease == if won then Some(Lease(i, c.now + LifetimeMs(ttl))) else c.lease
  {
    var es := [SetNx(i), Get(i), Set(i)];
    var c1 := Step(c, ttl, SetNx(i));
    var c2 := Step(c1, ttl, Get(i));
    assert es[1..] == [Get(i), Set(i)] && es[1..][1..] == [Set(i)] && [Set(i)][1..] == [];
    assert Exec(c2, ttl, [Set(i)]) == Step(c2, ttl, Set(i));
    assert Exec(c1, ttl, es[1..]) == Step(c2, ttl, Set(i));
  }
}
