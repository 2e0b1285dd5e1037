/** The fail-closed guard of local billing: a leaky counter of blind ticks with two cooldowns,
    which disconnects the panel's local users when usage accounting stays blind. */
module BillingGuard {
  import opened Base
  import opened Tables
  import opened Quota

  const DISCONNECT_COOLDOWN: real := 60.0
  const RECLAIM_COOLDOWN: real := 10.0
  const START_GRACE: real := 15.0

  /** What one tick observes: three readings of the clock, the state of the core, and whether an
      attempt to reclaim the core would succeed. */
  datatype Tick = Tick(
    now: real, reclaimAt: real, disconnectAt: real,
    billable: bool, restarting: bool, startedAt: Option<real>,
    unmanaged: bool, apiOk: bool, coreStarted: bool, reclaims: bool)

  datatype Guard = Guard(blind: int, lastDisconnect: real, lastReclaim: real)

  predicate BillingOk(t: Tick) { t.apiOk && (t.unmanaged || t.coreStarted) }

  predicate JustStarted(t: Tick) { t.startedAt.Some? && t.now - t.startedAt.value < START_GRACE }

  /** How the guard classifies a tick. */
  datatype Verdict = Cleared | Relief | Blind

  predicate TriesReclaim(g: Guard, t: Tick) {
    && t.billable && !t.restarting && t.now - g.lastDisconnect >= DISCONNECT_COOLDOWN
    && !JustStarted(t) && !BillingOk(t)
    && t.reclaimAt - g.lastReclaim >= RECLAIM_COOLDOWN
  }

  function Classify(g: Guard, t: Tick): Verdict {
    if !t.billable then Cleared
    else if t.restarting then Relief
    else if t.now - g.lastDisconnect < DISCONNECT_COOLDOWN then Cleared
    else if JustStarted(t) then Relief
    else if BillingOk(t) then Relief
    else if TriesReclaim(g, t) && t.reclaims then Cleared
    else Blind
  }

  /** Whether the tick ends in a mass disconnect. */
  predicate Fires(cycles: nat, g: Guard, t: Tick) { Classify(g, t) == Blind && g.blind + 1 >= cycles }

  function AfterCheck(cycles: nat, g: Guard, t: Tick): Guard {
    if cycles == 0 then g
    else
      var blind := match Classify(g, t)
        case Cleared => 0
        case Relief => Max(0, g.blind - 1)
        case Blind => if Fires(cycles, g, t) then 0 else g.blind + 1;
      Guard(blind,
            if Fires(cycles, g, t) then t.disconnectAt else g.lastDisconnect,
            if TriesReclaim(g, t) then t.reclaimAt else g.lastReclaim)
  }

  // ------------------------------------------------------------------ whole runs

  /** A run with its history: the blind ticks counted, the times of the disconnects and of the
      reclaim attempts, and the signed ticks since the counter was last cleared. */
  datatype History = History(
    guard: Guard, clock: real, blindTicks: nat, disconnects: seq<real>, reclaims: seq<real>, drift: seq<int>)

  function Start(clock: real): History { History(Guard(0, 0.0, 0.0), clock, 0, [], [], []) }

  function Recorded(cycles: nat, h: History, t: Tick): History {
    var fires := cycles > 0 && Fires(cycles, h.guard, t);
    var tries := cycles > 0 && TriesReclaim(h.guard, t);
    var verdict := Classify(h.guard, t);
    History(AfterCheck(cycles, h.guard, t), t.disconnectAt,
            h.blindTicks + (if cycles > 0 && verdict == Blind then 1 else 0),
            h.disconnects + (if fires then [t.disconnectAt] else []),
            h.reclaims + (if tries then [t.reclaimAt] else []),
            if cycles == 0 then h.drift
            else if verdict == Cleared || fires then []
            else h.drift + [if verdict == Blind then 1 else -1])
  }

  function Exec(cycles: nat, h: History, ts: seq<Tick>): History
    decreases |ts|
  {
    if ts == [] then h else Exec(cycles, Recorded(cycles, h, ts[0]), ts[1..])
  }

  /** The clock never runs backwards, within a tick or between ticks. */
  ghost predicate Monotone(clock: real, ts: seq<Tick>)
    decreases |ts|
  {
    ts == [] ||
    (clock <= ts[0].now <= ts[0].reclaimAt <= ts[0].disconnectAt && Monotone(ts[0].disconnectAt, ts[1..]))
  }

  /** Any two of the times are at least `gap` apart for each step between them. */
  ghost predicate Spaced(times: seq<real>, gap: real, last: real, clock: real) {
    && (forall i, j :: 0 <= i < j < |times| ==> times[j] - times[i] >= gap * (j - i) as real)
    && (times != [] ==> times[|times| - 1] == last)
    && last <= clock
  }

  lemma SpacedSnoc(times: seq<real>, gap: real, last: real, clock: real, t: real)
    requires Spaced(times, gap, last, clock) && gap > 0.0 && t - last >= gap
    ensures Spaced(times + [t], gap, t, t)
  {
    var n := |times|;
    forall i | 0 <= i < n ensures t - times[i] >= gap * (n - i) as real {
      assert gap * (n - i) as real == gap * (n - 1 - i) as real + gap;
      if i < n - 1 { assert times[n - 1] - times[i] >= gap * (n - 1 - i) as real; }
    }
  }

  // The leaky counter is the largest sum of a suffix of the signed ticks.

  function Sum(d: seq<int>): int {
    if d == [] then 0 else Sum(d[..|d| - 1]) + d[|d| - 1]
  }

  ghost predicate IsLargestSuffixSum(d: seq<int>, value: int) {
    && (exists k :: 0 <= k <= |d| && Sum(d[k..]) == value)
    && (forall k :: 0 <= k <= |d| ==> Sum(d[k..]) <= value)
  }

  lemma SuffixSnoc(d: seq<int>, x: int, k: nat)
    requires k <= |d|
    ensures Sum((d + [x])[k..]) == Sum(d[k..]) + x
  {
    assert (d + [x])[k..] == d[k..] + [x];
    assert (d[k..] + [x])[..|d[k..]|] == d[k..];
  }

  lemma LargestSuffixSumSnoc(d: seq<int>, value: int, x: int)
    requires IsLargestSuffixSum(d, value)
    ensures IsLargestSuffixSum(d + [x], Max(0, value + x)) && value >= 0
    ensures x > 0 ==> forall k :: 0 <= k <= |d| ==> Sum((d + [x])[k..]) <= value + x
  {
    assert d[|d|..] == [] && (d + [x])[|d| + 1..] == [];
    var k :| 0 <= k <= |d| && Sum(d[k..]) == value;
    SuffixSnoc(d, x, k);
    forall j | 0 <= j <= |d| + 1 ensures Sum((d + [x])[j..]) <= Max(0, value + x) {
      if j <= |d| { SuffixSnoc(d, x, j); }
    }
    if value + x < 0 { assert Sum((d + [x])[|d| + 1..]) == 0; }
  }

  ghost predicate Inv(cycles: nat, h: History) {
    && 0 <= h.guard.blind && (cycles > 0 ==> h.guard.blind < cycles)
    && cycles * |h.disconnects| + h.guard.blind <= h.blindTicks
    && Spaced(h.disconnects, DISCONNECT_COOLDOWN, h.guard.lastDisconnect, h.clock)
    && Spaced(h.reclaims, RECLAIM_COOLDOWN, h.guard.lastReclaim, h.clock)
    && IsLargestSuffixSum(h.drift, h.guard.blind)
  }

  lemma StartHolds(cycles: nat, clock: real)
    requires clock >= 0.0
    ensures Inv(cycles, Start(clock))
  {
    var d: seq<int> := [];
    assert d[0..] == [] && Sum(d[0..]) == 0;
  }

  lemma CountStep(cycles: nat, h: History, t: Tick)
    requires Inv(cycles, h)
    ensures var q := Recorded(cycles, h, t);
            && 0 <= q.guard.blind && (cycles > 0 ==> q.guard.blind < cycles)
            && cycles * |q.disconnects| + q.guard.blind <= q.blindTicks
            && |q.disconnects| == |h.disconnects| + (if cycles > 0 && Fires(cycles, h.guard, t) then 1 else 0)
  {
    assert cycles * (|h.disconnects| + 1) == cycles * |h.disconnects| + cycles;
  }

  lemma DriftStep(cycles: nat, h: History, t: Tick)
    requires Inv(cycles, h)
    ensures var q := Recorded(cycles, h, t); IsLargestSuffixSum(q.drift, q.guard.blind)
  {
    LargestSuffixSumSnoc(h.drift, h.guard.blind, 1);
    LargestSuffixSumSnoc(h.drift, h.guard.blind, -1);
    var d: seq<int> := [];
    assert d[0..] == [] && Sum(d[0..]) == 0;
  }

  lemma StepKeepsInv(cycles: nat, h: History, t: Tick)
    requires Inv(cycles, h) && h.clock <= t.now <= t.reclaimAt <= t.disconnectAt
    ensures Inv(cycles, Recorded(cycles, h, t))
  {
    CountStep(cycles, h, t);
    DriftStep(cycles, h, t);
    var g := h.guard;
    if cycles > 0 && Fires(cycles, g, t) {
      SpacedSnoc(h.disconnects, DISCONNECT_COOLDOWN, g.lastDisconnect, h.clock, t.disconnectAt);
    }
    if cycles > 0 && TriesReclaim(g, t) {
      SpacedSnoc(h.reclaims, RECLAIM_COOLDOWN, g.lastReclaim, h.clock, t.reclaimAt);
    }
    assert h.disconnects + [] == h.disconnects && h.reclaims + [] == h.reclaims;
  }

  lemma {:induction false} RunKeepsInv(cycles: nat, h: History, ts: seq<Tick>)
    requires Inv(cycles, h) && Monotone(h.clock, ts)
    ensures Inv(cycles, Exec(cycles, h, ts))
    decreases |ts|
  {
    if ts != [] {
      StepKeepsInv(cycles, h, ts[0]);
      RunKeepsInv(cycles, Recorded(cycles, h, ts[0]), ts[1..]);
    }
  }

  /** In every run the disconnects are paid for by blind ticks, `cycles` of them each; disconnects
      are at least a minute apart and reclaim attempts ten seconds, however long the run. */
  lemma DisconnectsArePaidFor(cycles: nat, clock: real, ts: seq<Tick>)
    requires clock >= 0.0 && Monotone(clock, ts)
    ensures var h := Exec(cycles, Start(clock), ts);
            && cycles * |h.disconnects| + h.guard.blind <= h.blindTicks
            && 0 <= h.guard.blind && (cycles > 0 ==> h.guard.blind < cycles)
            && (forall i, j :: 0 <= i < j < |h.disconnects| ==>
                  h.disconnects[j] - h.disconnects[i] >= 60.0 * (j - i) as real)
            && (forall i, j :: 0 <= i < j < |h.reclaims| ==>
                  h.reclaims[j] - h.reclaims[i] >= 10.0 * (j - i) as real)
  {
    StartHolds(cycles, clock);
    RunKeepsInv(cycles, Start(clock), ts);
  }

  /** Exactly when the guard fires: at a blind tick that ends a stretch, since the counter was last
      cleared, in which blind ticks outnumber the others by `cycles`. */
  lemma FiresExactlyWhenBlindnessOutweighs(cycles: nat, clock: real, ts: seq<Tick>, t: Tick)
    requires cycles > 0 && clock >= 0.0 && Monotone(clock, ts)
    ensures var h := Exec(cycles, Start(clock), ts);
            Fires(cycles, h.guard, t) <==>
              Classify(h.guard, t) == Blind &&
              exists k :: 0 <= k <= |h.drift| && Sum((h.drift + [1])[k..]) >= cycles
  {
    StartHolds(cycles, clock);
    RunKeepsInv(cycles, Start(clock), ts);
    var h := Exec(cycles, Start(clock), ts);
    LargestSuffixSumSnoc(h.drift, h.guard.blind, 1);
    var k :| 0 <= k <= |h.drift| && Sum(h.drift[k..]) == h.guard.blind;
    SuffixSnoc(h.drift, 1, k);
  }

  /** When exactly a tick disconnects, in what it observes: the panel serves users, the core is
      neither restarting nor started within 15 seconds, the last disconnect is a minute ago, usage
      cannot be read or no core runs, no reclaim that is due succeeds, and enough ticks went before. */
  lemma FiresIff(cycles: nat, g: Guard, t: Tick)
    ensures Fires(cycles, g, t) <==>
            && t.billable && !t.restarting && t.now - g.lastDisconnect >= 60.0
            && (t.startedAt.Some? ==> t.now - t.startedAt.value >= 15.0)
            && (!t.apiOk || (!t.unmanaged && !t.coreStarted))
            && !(t.reclaims && t.reclaimAt - g.lastReclaim >= 10.0)
            && g.blind + 1 >= cycles
  {
  }

  /** A tick that finds billing fine: the API answers, and some core serves it. */
  ghost predicate Fine(t: Tick) { t.apiOk && (t.unmanaged || t.coreStarted) }

  /** A run whose ticks all find billing fine never disconnects, and forgets blindness. */
  lemma {:induction false} FineRunsNeverDisconnect(cycles: nat, h: History, ts: seq<Tick>)
    requires cycles > 0 && h.guard.blind >= 0 && forall k :: 0 <= k < |ts| ==> Fine(ts[k])
    ensures Exec(cycles, h, ts).disconnects == h.disconnects && Exec(cycles, h, ts).blindTicks == h.blindTicks
    ensures 0 <= Exec(cycles, h, ts).guard.blind <= Max(0, h.guard.blind - |ts|)
    decreases |ts|
  {
    if ts != [] {
      assert Fine(ts[0]);
      FiresIff(cycles, h.guard, ts[0]);
      assert h.disconnects + [] == h.disconnects;
      assert forall k :: 0 <= k < |ts[1..]| ==> ts[1..][k] == ts[k + 1];
      FineRunsNeverDisconnect(cycles, Recorded(cycles, h, ts[0]), ts[1..]);
    }
  }

  /** A tick at which billing is down and nothing excuses it. */
  ghost predicate Down(t: Tick) {
    && t.billable && !t.restarting && !t.reclaims && (!t.apiOk || (!t.unmanaged && !t.coreStarted))
    && (t.startedAt.Some? ==> t.now - t.startedAt.value >= 15.0)
  }

  /** Fail closed: once the cooldown is over, an outage that lasts as many ticks as the counter
      still lacks ends in exactly one disconnect, at the last of them. */
  lemma {:induction false} LastingOutageDisconnects(cycles: nat, h: History, ts: seq<Tick>)
    requires 0 <= h.guard.blind < cycles && |ts| == cycles - h.guard.blind
    requires Monotone(h.clock, ts) && ts[0].now - h.guard.lastDisconnect >= DISCONNECT_COOLDOWN
    requires forall k :: 0 <= k < |ts| ==> Down(ts[k])
    ensures Exec(cycles, h, ts).disconnects == h.disconnects + [ts[|ts| - 1].disconnectAt]
    ensures Exec(cycles, h, ts).guard.blind == 0
    decreases |ts|
  {
    var t := ts[0];
    assert Down(t) && Classify(h.guard, t) == Blind;
    var q := Recorded(cycles, h, t);
    if |ts| > 1 {
      assert Monotone(t.disconnectAt, ts[1..]) && ts[1..][0] == ts[1];
      assert h.disconnects + [] == h.disconnects;
      assert forall k :: 0 <= k < |ts[1..]| ==> ts[1..][k] == ts[k + 1];
      LastingOutageDisconnects(cycles, q, ts[1..]);
    }
  }

  // ------------------------------------------------------------------ recovery of false limits

  /** The guard's recovery and the quota module's own rule bring back the same users, except those
      the rule would release although their overage or their limit is negative. */
  lemma RecoveryAgreesIff(u: User)
    ensures RecoverUser(u) == Reactivate(u) <==>
            !(u.status == Limited && !QuotaExhausted(u) &&
              (u.overage < 0 || (u.overage == 0 && u.dataLimit.Some? && u.dataLimit.value < 0)))
  {
  }


  method RecoverFalseBillingLimits(db: Session) returns (updated: nat)
    modifies db`users
    ensures db.users == map id | id in old(db.users) :: RecoverUser(old(db.users)[id])
    ensures updated == |set id | id in old(db.users) && FalselyLimited(old(db.users)[id])|
  {
    var rows := set id | id in db.users && FalselyLimited(db.users[id]);
    var todo := rows;
    while todo != {}
      invariant todo <= rows && db.users.Keys == old(db.users).Keys
      invariant forall id :: id in db.users ==>
        db.users[id] == if id in todo then old(db.users)[id] else RecoverUser(old(db.users)[id])
      decreases |todo|
    {
      var id :| id in todo;
      db.users := db.users[id := db.users[id].(status := Active)];
      todo := todo - {id};
    }
    updated := |rows|;
  }

  // ------------------------------------------------------------------ the guard itself

  class BillingGuardState {
    var blindLocalCycles: int
    var lastDisconnectAt: real
    var lastReclaimAt: real

    function State(): Guard
      reads this
    {
      Guard(blindLocalCycles, lastDisconnectAt, lastReclaimAt)
    }

    constructor ()
      ensures State() == Start(0.0).guard
    {
      blindLocalCycles, lastDisconnectAt, lastReclaimAt := 0, 0.0, 0.0;
    }

    method AttemptCoreReclaim(t: Tick) returns (ok: bool)
      modifies this`lastReclaimAt
      ensures var due := t.reclaimAt - old(lastReclaimAt) >= RECLAIM_COOLDOWN;
              ok == (due && t.reclaims) && lastReclaimAt == if due then t.reclaimAt else old(lastReclaimAt)
    {
      if t.reclaimAt - lastReclaimAt < RECLAIM_COOLDOWN { return false; }
      lastReclaimAt := t.reclaimAt;
      return t.reclaims;
    }

    /** One tick; users change only through the recovery of false limits, and only when billing is
        fine again after blind ticks. */
    method CheckBillingIntegrity(cycles: int, t: Tick, db: Session) returns (disconnected: bool)
      modifies this, db`users
      ensures State() == AfterCheck(Max(0, cycles), old(State()), t)
      ensures disconnected == (cycles > 0 && Fires(Max(0, cycles), old(State()), t))
      ensures db.users == (if cycles > 0 && t.billable && !t.restarting && !JustStarted(t) && BillingOk(t) &&
                              t.now - old(lastDisconnectAt) >= DISCONNECT_COOLDOWN && old(blindLocalCycles) > 0
                           then map id | id in old(db.users) :: RecoverUser(old(db.users)[id])
                           else old(db.users))
    {
      if cycles <= 0 { return false; }
      if !t.billable { blindLocalCycles := 0; return false; }
      if t.restarting { blindLocalCycles := Max(0, blindLocalCycles - 1); return false; }
      if t.now - lastDisconnectAt < DISCONNECT_COOLDOWN { blindLocalCycles := 0; return false; }
      if t.startedAt.Some? && t.now - t.startedAt.value < START_GRACE {
        blindLocalCycles := Max(0, blindLocalCycles - 1);
        return false;
      }
      if t.apiOk && (t.unmanaged || t.coreStarted) {
        if blindLocalCycles > 0 { var _ := RecoverFalseBillingLimits(db); }
        blindLocalCycles := Max(0, blindLocalCycles - 1);
        return false;
      }
      var reclaimed := AttemptCoreReclaim(t);
      if reclaimed { blindLocalCycles := 0; return false; }
      blindLocalCycles := blindLocalCycles + 1;
      if blindLocalCycles >= cycles {
        blindLocalCycles, lastDisconnectAt := 0, t.disconnectAt;
        return true;
      }
      return false;
    }
  }
}
