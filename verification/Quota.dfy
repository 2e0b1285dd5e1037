/** Data limits of users and commercial limits of resellers: clamping, recharge, and the
    suspension and restoration of a blocked reseller's users. */
module Quota {
  import opened Base
  import opened Tables

  predicate Unlimited(limit: Option<int>) { limit == None || limit.value <= 0 }

  predicate QuotaExhausted(u: User) { !Unlimited(u.dataLimit) && u.used >= u.dataLimit.value }

  function ClampDelta(used: int, limit: Option<int>, delta: int): int {
    if Unlimited(limit) || delta <= 0 then Max(0, delta) else Min(delta, Max(0, limit.value - used))
  }

  // ------------------------------------------------------------------ clamping one tick

  datatype Entry = Entry(uid: UserId, value: int)

  /** Usage so far and limit, per user. */
  datatype Allowance = Allowance(used: int, limit: Option<int>)

  type Meta = map<UserId, Allowance>

  function AllowanceOf(meta: Meta, uid: UserId): Allowance {
    if uid in meta then meta[uid] else Allowance(0, None)
  }

  function Billable(meta: Meta, e: Entry): int {
    ClampDelta(AllowanceOf(meta, e.uid).used, AllowanceOf(meta, e.uid).limit, e.value)
  }

  /** The code's test for reaching the limit; it takes any non-zero limit for a limit. */
  predicate Hits(meta: Meta, e: Entry) {
    var a := AllowanceOf(meta, e.uid);
    a.limit.Some? && a.limit.value != 0 && Billable(meta, e) > 0 && a.used + Billable(meta, e) >= a.limit.value
  }

  function Clamped(meta: Meta, es: seq<Entry>): seq<Entry> {
    if es == [] then []
    else
      var n := |es| - 1;
      Clamped(meta, es[..n]) +
      (if Billable(meta, es[n]) > 0 then [Entry(es[n].uid, Billable(meta, es[n]))] else [])
  }

  function Reached(meta: Meta, es: seq<Entry>): seq<UserId> {
    if es == [] then []
    else
      var n := |es| - 1;
      Reached(meta, es[..n]) + (if Hits(meta, es[n]) then [es[n].uid] else [])
  }

  method ClampUsageEntries(entries: seq<Entry>, meta: Meta) returns (out: seq<Entry>, hit: seq<UserId>)
    ensures out == Clamped(meta, entries) && hit == Reached(meta, entries)
  {
    out, hit := [], [];
    for i := 0 to |entries|
      invariant out == Clamped(meta, entries[..i]) && hit == Reached(meta, entries[..i])
    {
      assert entries[..i + 1][..i] == entries[..i];
      var a := AllowanceOf(meta, entries[i].uid);
      var value := ClampDelta(a.used, a.limit, entries[i].value);
      if a.limit.Some? && a.limit.value != 0 && value > 0 && a.used + value >= a.limit.value {
        hit := hit + [entries[i].uid];
      }
      if value > 0 { out := out + [Entry(entries[i].uid, value)]; }
    }
    assert entries[..|entries|] == entries;
  }

  // ------------------------------------------------------------------ any cut into ticks

  function Recorded(meta: Meta, out: seq<Entry>): Meta {
    if out == [] then meta
    else
      var n := |out| - 1;
      var before := Recorded(meta, out[..n]);
      var a := AllowanceOf(before, out[n].uid);
      before[out[n].uid := a.(used := a.used + out[n].value)]
  }

  function AfterTick(meta: Meta, tick: seq<Entry>): Meta { Recorded(meta, Clamped(meta, tick)) }

  function AfterTicks(meta: Meta, ticks: seq<seq<Entry>>): Meta {
    if ticks == [] then meta else AfterTick(AfterTicks(meta, ticks[..|ticks| - 1]), ticks[|ticks| - 1])
  }

  /** In how many of the ticks the user was reported as having reached the limit. */
  function TimesReported(meta: Meta, ticks: seq<seq<Entry>>, uid: UserId): nat {
    if ticks == [] then 0
    else
      var n := |ticks| - 1;
      TimesReported(meta, ticks[..n], uid) +
      (if uid in Reached(AfterTicks(meta, ticks[..n]), ticks[n]) then 1 else 0)
  }

  /** The user's positive traffic in one tick, and in all of them. */
  function Traffic(tick: seq<Entry>, uid: UserId): int {
    if tick == [] then 0
    else
      var n := |tick| - 1;
      Traffic(tick[..n], uid) + (if tick[n].uid == uid then Max(0, tick[n].value) else 0)
  }

  function TotalTraffic(ticks: seq<seq<Entry>>, uid: UserId): int {
    if ticks == [] then 0
    else TotalTraffic(ticks[..|ticks| - 1], uid) + Traffic(ticks[|ticks| - 1], uid)
  }

  ghost predicate DistinctUids(tick: seq<Entry>) {
    forall i, j :: 0 <= i < j < |tick| ==> tick[i].uid != tick[j].uid
  }

  ghost predicate Absent(tick: seq<Entry>, uid: UserId) {
    forall i :: 0 <= i < |tick| ==> tick[i].uid != uid
  }

  lemma {:induction false} AbsentStaysOut(meta: Meta, tick: seq<Entry>, uid: UserId)
    requires Absent(tick, uid)
    ensures Traffic(tick, uid) == 0 && uid !in Reached(meta, tick) && Absent(Clamped(meta, tick), uid)
    decreases |tick|
  {
    if tick != [] { AbsentStaysOut(meta, tick[..|tick| - 1], uid); }
  }

  lemma {:induction false} RecordedElsewhere(meta: Meta, out: seq<Entry>, uid: UserId)
    requires Absent(out, uid)
    ensures AllowanceOf(Recorded(meta, out), uid) == AllowanceOf(meta, uid)
    decreases |out|
  {
    if out != [] { RecordedElsewhere(meta, out[..|out| - 1], uid); }
  }

  lemma RecordedSnoc(meta: Meta, out: seq<Entry>, e: Entry, uid: UserId)
    ensures var a := AllowanceOf(Recorded(meta, out), uid);
            AllowanceOf(Recorded(meta, out + [e]), uid) == if e.uid == uid then a.(used := a.used + e.value) else a
  {
    assert (out + [e])[..|out|] == out;
  }

  /** One more entry in a tick. */
  lemma TickSnoc(meta: Meta, tick: seq<Entry>, uid: UserId)
    requires tick != []
    ensures var n := |tick| - 1;
            var a := AllowanceOf(AfterTick(meta, tick[..n]), uid);
            AllowanceOf(AfterTick(meta, tick), uid)
              == if tick[n].uid == uid then a.(used := a.used + Billable(meta, tick[n])) else a
  {
    hide Recorded;
    var n := |tick| - 1;
    var c, e := Clamped(meta, tick[..n]), Entry(tick[n].uid, Billable(meta, tick[n]));
    RecordedSnoc(meta, c, e, uid);
    assert Clamped(meta, tick) == if e.value > 0 then c + [e] else c + [];
    assert c + [] == c;
  }

  lemma ReachedSnoc(meta: Meta, tick: seq<Entry>, uid: UserId)
    requires tick != []
    ensures var n := |tick| - 1;
            uid in Reached(meta, tick) <==> uid in Reached(meta, tick[..n]) || (tick[n].uid == uid && Hits(meta, tick[n]))
  {
  }

  lemma TickWithout(meta: Meta, tick: seq<Entry>, uid: UserId)
    requires Absent(tick, uid)
    ensures AllowanceOf(AfterTick(meta, tick), uid) == AllowanceOf(meta, uid)
    ensures uid !in Reached(meta, tick) && Traffic(tick, uid) == 0
  {
    AbsentStaysOut(meta, tick, uid);
    RecordedElsewhere(meta, Clamped(meta, tick), uid);
  }

  /** What one tick does to one user: the clamped traffic is added, and the report is the test
      on that user's own entry. */
  lemma {:induction false} TickAt(meta: Meta, tick: seq<Entry>, uid: UserId)
    requires DistinctUids(tick)
    ensures var a := AllowanceOf(meta, uid);
            var e := Entry(uid, Traffic(tick, uid));
            && AllowanceOf(AfterTick(meta, tick), uid) == a.(used := a.used + Billable(meta, e))
            && (uid in Reached(meta, tick) <==> Hits(meta, e))
            && Traffic(tick, uid) >= 0
    decreases |tick|
  {
    if tick == [] {
      TickWithout(meta, tick, uid);
    } else {
      hide AfterTick, Reached;
      var n := |tick| - 1;
      TickSnoc(meta, tick, uid);
      ReachedSnoc(meta, tick, uid);
      if tick[n].uid == uid {
        TickWithout(meta, tick[..n], uid);
      } else {
        TickAt(meta, tick[..n], uid);
      }
    }
  }

  lemma HitsWhenCrossing(meta: Meta, uid: UserId, traffic: nat)
    requires var a := AllowanceOf(meta, uid);
             (a.limit == None || a.limit.value >= 0) && (Unlimited(a.limit) || a.used <= a.limit.value)
    ensures var a := AllowanceOf(meta, uid);
            Hits(meta, Entry(uid, traffic)) <==> !Unlimited(a.limit) && a.used < a.limit.value <= a.used + traffic
  {
  }

  lemma {:induction false} UsedAfterTicks(meta: Meta, ticks: seq<seq<Entry>>, uid: UserId)
    requires forall i :: 0 <= i < |ticks| ==> DistinctUids(ticks[i])
    requires Unlimited(AllowanceOf(meta, uid).limit) || AllowanceOf(meta, uid).used <= AllowanceOf(meta, uid).limit.value
    ensures var a := AllowanceOf(meta, uid);
            var total := a.used + TotalTraffic(ticks, uid);
            AllowanceOf(AfterTicks(meta, ticks), uid)
              == a.(used := if Unlimited(a.limit) then total else Min(a.limit.value, total))
    ensures TotalTraffic(ticks, uid) >= 0
    decreases |ticks|
  {
    if ticks != [] {
      hide AfterTick, Reached, Traffic;
      var n := |ticks| - 1;
      UsedAfterTicks(meta, ticks[..n], uid);
      TickAt(AfterTicks(meta, ticks[..n]), ticks[n], uid);
    }
  }

  /** Clamping does not depend on how the traffic is cut into ticks: a limited user ends at the
      limit or at start plus traffic, whichever is less, and is reported exactly once, if the
      traffic reaches the limit at all; an unlimited user's traffic is all recorded. */
  lemma {:induction false} ClampingIsIndependentOfTicks(meta: Meta, ticks: seq<seq<Entry>>, uid: UserId)
    requires forall i :: 0 <= i < |ticks| ==> DistinctUids(ticks[i])
    requires Unlimited(AllowanceOf(meta, uid).limit) || AllowanceOf(meta, uid).used <= AllowanceOf(meta, uid).limit.value
    ensures var a := AllowanceOf(meta, uid);
            var total := a.used + TotalTraffic(ticks, uid);
            AllowanceOf(AfterTicks(meta, ticks), uid)
              == a.(used := if Unlimited(a.limit) then total else Min(a.limit.value, total))
    ensures var a := AllowanceOf(meta, uid);
            a.limit == None || a.limit.value >= 0 ==>
              TimesReported(meta, ticks, uid)
                == if !Unlimited(a.limit) && a.used < a.limit.value <= a.used + TotalTraffic(ticks, uid) then 1 else 0
    decreases |ticks|
  {
    hide AfterTick, AfterTicks, Reached, Traffic, Hits, Billable, DistinctUids;
    UsedAfterTicks(meta, ticks, uid);
    if ticks != [] {
      var n := |ticks| - 1;
      var before := AfterTicks(meta, ticks[..n]);
      UsedAfterTicks(meta, ticks[..n], uid);
      ClampingIsIndependentOfTicks(meta, ticks[..n], uid);
      TickAt(before, ticks[n], uid);
      var a := AllowanceOf(meta, uid);
      if a.limit == None || a.limit.value >= 0 { HitsWhenCrossing(before, uid, Traffic(ticks[n], uid)); }
    }
  }

  /** With a negative limit, which the clamp takes for none, traffic is recorded in full and yet
      reported: the report and the clamp agree exactly on limits that are absent or not negative. */
  lemma ReportAgreesIffLimitNotNegative(limit: Option<int>)
    ensures (limit == None || limit.value >= 0) <==>
            (forall used: int, value: int :: used >= 0 ==>
               (Hits(map[0 := Allowance(used, limit)], Entry(0, value)) ==> !Unlimited(limit)))
  {
    if limit.Some? && limit.value < 0 {
      assert Hits(map[0 := Allowance(0, limit)], Entry(0, 1));
    }
  }

  // ------------------------------------------------------------------ recharge

  function Reactivate(u: User): User {
    if u.status == Limited && !QuotaExhausted(u) && u.overage <= 0 then u.(status := Active) else u
  }

  /** Traffic used beyond the old package is counted against the new one. */
  function ApplyOverage(u: User, newLimit: Option<int>): User {
    if u.overage <= 0 then u
    else if Unlimited(newLimit) then u.(used := u.used + u.overage, overage := 0)
    else
      var total := u.used + u.overage;
      u.(used := Min(total, newLimit.value), overage := Max(0, total - newLimit.value))
  }

  function Recharge(u: User, newLimit: Option<int>): User {
    Reactivate(ApplyOverage(u.(dataLimit := newLimit), newLimit))
  }

  /** A recharge loses no consumed byte, and brings a limited user back exactly when everything
      consumed so far fits strictly below the new limit or the new package is unlimited. */
  lemma RechargeConserves(u: User, newLimit: Option<int>)
    requires u.overage >= 0
    ensures var v := Recharge(u, newLimit);
            && v.used + v.overage == u.used + u.overage
            && (u.status == Limited ==>
                  (v.status == Active <==> Unlimited(newLimit) || u.used + u.overage < newLimit.value))
            && (u.status != Limited ==> v.status == u.status)
            && (!Unlimited(newLimit) && u.overage > 0 ==> v.used <= newLimit.value)
  {
  }

  // ------------------------------------------------------------------ edits and plans

  /** An edit of a user: the fields that are given, with whether a given expiry lies ahead. */
  datatype Change = Change(status: Option<UserStatus>, limit: Option<nat>, runs: Option<bool>)

  /** A new data limit: as a recharge, but usage is also cut to the limit, and without an explicit
      status the status is set from the result. */
  function WithLimit(u: User, c: Change): User
    requires c.limit.Some?
  {
    var n := c.limit.value;
    var limit := if n == 0 then None else Some(n as int);
    var v := ApplyOverage(u.(dataLimit := limit), limit);
    var w := if limit.Some? && v.used > n then v.(used := n) else v;
    if c.status.Some? || w.status == Expired || w.status == Disabled then w
    else if limit.Some? && w.used >= n then w.(status := Limited)
    else if w.status == OnHold then w
    else w.(status := Active)
  }

  /** The whole edit; an operator's explicit limited status is not undone unless the limit is new. */
  function Updated(u: User, c: Change): User {
    var v := if c.status.Some? then u.(status := c.status.value) else u;
    var w := if c.limit.Some? then WithLimit(v, c) else v;
    var x := if c.runs.Some? && c.status == None && (w.status == Active || w.status == Expired)
             then w.(status := if c.runs.value then Active else Expired) else w;
    if c.status != Some(Limited) || c.limit.Some? then Reactivate(x) else x
  }

  function EditLimit(u: User, n: nat): User { Updated(u, Change(None, Some(n), None)) }

  /** A fresh period: counters go to zero, and an account neither expired nor disabled is active. */
  function UsageReset(u: User, keepHold: bool): User {
    u.(used := 0, overage := 0,
       status := if u.status == Expired || u.status == Disabled || (keepHold && u.status == OnHold) then u.status else Active)
  }

  function Remaining(u: User): int
    requires !Unlimited(u.dataLimit)
  {
    Max(0, u.dataLimit.value - u.used)
  }

  /** The limit after buying a plan, zero for unlimited: unused traffic is kept on top. */
  function RenewalLimit(u: User, plan: Option<int>): nat {
    if Unlimited(plan) then 0 else if Unlimited(u.dataLimit) then plan.value else plan.value + Remaining(u)
  }

  function Renewed(u: User, plan: Option<int>): User {
    var v := if u.used > 0 || u.overage > 0 then UsageReset(u, false) else u;
    Updated(v, Change(Some(Active), Some(RenewalLimit(u, plan)), Some(true)))
  }

  /** A renewal starts an active, empty period in which exactly the plan and the unused remainder of
      a limited account are left; ownership and the suspension mark stay as they are. */
  lemma RenewalCarriesTheRemainder(u: User, plan: Option<int>)
    requires u.used >= 0 && u.overage >= 0
    ensures var v := Renewed(u, plan);
            && v == User(Active, u.capped, u.admin, v.dataLimit, 0, 0)
            && (Unlimited(plan) <==> Unlimited(v.dataLimit))
            && (!Unlimited(plan) ==> Remaining(v) == plan.value + if Unlimited(u.dataLimit) then 0 else Remaining(u))
  {
  }

  /** What an edit of the limit alone makes of an account that is neither expired nor disabled: it is
      limited exactly when what it consumed reaches the new limit, and otherwise active, or still on
      hold. */
  lemma EditedLimitDecides(u: User, n: nat)
    requires u.status != Expired && u.status != Disabled && u.overage >= 0
    ensures var v := EditLimit(u, n);
            && v.dataLimit == (if n == 0 then None else Some(n)) && v.capped == u.capped && v.admin == u.admin
            && (v.status == Limited <==> n > 0 && u.used + u.overage >= n)
            && (v.status != Limited ==> v.status == if u.status == OnHold then OnHold else Active)
            && (n > 0 && u.used <= n ==> v.used == Min(n, u.used + u.overage))
  {
  }

  /** An edit of the expiry alone: an expired account comes back and a running one ends, as the new
      expiry lies ahead or not; anyone else keeps its status, and nobody's counters move. */
  lemma EditedExpiryDecides(u: User, runs: bool)
    requires u.status != Limited
    ensures Updated(u, Change(None, None, Some(runs)))
         == u.(status := if u.status == Active || u.status == Expired then if runs then Active else Expired else u.status)
  {
  }

  /** A reset empties the counters and makes everyone active but expired and disabled accounts, and
      those on hold where a hold is kept. */
  lemma ResetEmpties(u: User, keepHold: bool)
    ensures var v := UsageReset(u, keepHold);
            && v == u.(used := 0, overage := 0, status := v.status)
            && (v.status == Active <==> u.status == Active || u.status == Limited || (u.status == OnHold && !keepHold))
            && (v.status != Active ==> v.status == u.status)
  {
  }

  /** Firing the next plan; the code adds the remainder when the flag is off, and fails on an
      unlimited account then. */
  function NextPlanFired(u: User, limit: int, addRemaining: bool): User {
    if !addRemaining && u.dataLimit == None then u
    else
      u.(status := Active, used := 0, overage := 0,
         dataLimit := Some(limit + if addRemaining then 0 else u.dataLimit.value - u.used))
  }

  /** What is left after the next plan: the plan alone when the flag is on, the plan and what was left
      before, less what was used too much, when it is off. */
  lemma NextPlanLeaves(u: User, limit: int, addRemaining: bool)
    requires addRemaining || u.dataLimit.Some?
    ensures var v := NextPlanFired(u, limit, addRemaining);
            && v.status == Active && v.used == 0 && v.overage == 0 && v.capped == u.capped && v.dataLimit.Some?
            && v.dataLimit.value - v.used == limit + if addRemaining then 0 else u.dataLimit.value - u.used
  {
  }

  predicate FalselyLimited(u: User) {
    && u.status == Limited && u.overage == 0
    && (u.dataLimit == None || u.dataLimit.value == 0 || (u.dataLimit.value > 0 && u.used < u.dataLimit.value))
  }

  function RecoverUser(u: User): User { if FalselyLimited(u) then u.(status := Active) else u }

  /** The edit keeps the consumed bytes unless it lowers the limit below the usage of a user
      without overage; then the bytes above the new limit are dropped. */
  lemma EditLimitConservesIff(u: User, newLimit: nat)
    requires u.overage >= 0
    ensures var v := EditLimit(u, newLimit);
            v.used + v.overage == u.used + u.overage <==> !(newLimit > 0 && u.overage == 0 && u.used > newLimit)
  {
  }

  function LimitUser(u: User): User {
    var v := if !Unlimited(u.dataLimit) then u.(used := Min(u.used, u.dataLimit.value)) else u;
    if v.status == Active && v.dataLimit.Some? && v.dataLimit.value != 0 && v.used >= v.dataLimit.value
    then v.(status := Limited) else v
  }

  /** Reaching the limit: usage is cut to it, and exactly the active accounts that used it up become
      limited. */
  lemma LimitUserMeans(u: User)
    ensures var v := LimitUser(u);
            && v == u.(used := v.used, status := v.status)
            && (u.dataLimit.Some? && u.dataLimit.value > 0 ==>
                  v.used == (if u.used <= u.dataLimit.value then u.used else u.dataLimit.value) &&
                  (u.status == Active ==> (v.status == Limited <==> u.used >= u.dataLimit.value)))
            && (u.status != Active ==> v.status == u.status)
            && (u.dataLimit == None ==> v == u)
  {
  }

  // ------------------------------------------------------------------ suspension and restoration

  predicate Belongs(u: User, admins: set<AdminId>) { u.admin.Some? && u.admin.value in admins }

  function SuspendUser(u: User, blocked: set<AdminId>): User {
    if Belongs(u, blocked) && u.status == Active then u.(status := Disabled, capped := true) else u
  }

  predicate Restorable(u: User, blocked: set<AdminId>) {
    u.capped && u.admin.Some? && u.admin.value !in blocked
  }

  function RestoreUser(u: User, blocked: set<AdminId>): User {
    if Restorable(u, blocked) then u.(capped := false, status := if QuotaExhausted(u) then Limited else Active) else u
  }

  function EnforceUser(u: User, blocked: set<AdminId>): User { RestoreUser(SuspendUser(u, blocked), blocked) }

  function Enforced(users: map<UserId, User>, blocked: set<AdminId>): map<UserId, User> {
    map id | id in users :: EnforceUser(users[id], blocked)
  }

  /** After enforcement no active user belongs to a blocked reseller and no capped one to an
      unblocked reseller; every user neither active under a block nor capped without one is
      untouched; and usage, limits and ownership never change. */
  lemma EnforcementSettles(users: map<UserId, User>, blocked: set<AdminId>, id: UserId)
    requires id in users
    ensures var u, v := users[id], Enforced(users, blocked)[id];
            && !(v.status == Active && Belongs(v, blocked))
            && (v.capped && v.admin.Some? ==> v.admin.value in blocked)
            && (!(u.status == Active && Belongs(u, blocked)) && !Restorable(u, blocked) ==> v == u)
            && v == u.(status := v.status, capped := v.capped)
    ensures Enforced(Enforced(users, blocked), blocked) == Enforced(users, blocked)
  {
    forall x | x in users ensures EnforceUser(EnforceUser(users[x], blocked), blocked) == EnforceUser(users[x], blocked) {}
  }

  /** A user suspended by the panel is disabled. */
  ghost predicate CappedMeansDisabled(u: User) { u.capped ==> u.status == Disabled }

  /** What the panel does to a user's status, limit, usage, owner or suspension mark. */
  datatype UserEvent =
    | Enforcement(blocked: set<AdminId>)
    | UseTraffic(bytes: nat)
    | HitLimit                                      // usage reached the limit
    | RunOut                                        // the expiry passed
    | LeaveHold                                     // first use, or the hold timed out
    | ReviewLimited                                 // the review of limited users
    | Recover                                       // the guard's recovery of false limits
    | ResetCounters(keepHold: bool)
    | Extend(runs: Option<bool>, addData: nat)      // more time or data in bulk
    | BulkDisable(onlyLive: bool)
    | ChangeOwner(admin: Option<AdminId>)
    | RepairImport(used: nat, limit: int)           // usage and limit taken from another panel's dump
    | Edit(change: Change)
    | Renew(plan: Option<int>)
    | FireNextPlan(limit: int, addRemaining: bool)
    | BulkActivate(status: UserStatus)

  function Extended(u: User, runs: Option<bool>, addData: nat): User {
    if runs == None && (addData == 0 || Unlimited(u.dataLimit)) then u
    else
      var v := if !Unlimited(u.dataLimit) then u.(dataLimit := Some(u.dataLimit.value + addData)) else u;
      var w := if v.status == Expired && runs == Some(true) then v.(status := Active) else v;
      if w.status == Limited && (w.dataLimit == None || w.dataLimit.value == 0 || w.used < w.dataLimit.value)
      then w.(status := Active) else w
  }

  /** More data raises the limit of an account that has one by exactly that much, and a limited
      account comes back exactly when it then has room; more time brings back expired ones. */
  lemma ExtensionMeans(u: User, runs: Option<bool>, addData: nat)
    requires u.dataLimit.Some? && u.dataLimit.value > 0 && (runs.Some? || addData > 0)
    ensures var v := Extended(u, runs, addData);
            && v == u.(dataLimit := Some(u.dataLimit.value + addData), status := v.status)
            && (u.status == Limited ==> v.status == if u.used < u.dataLimit.value + addData then Active else Limited)
            && (u.status == Expired ==> v.status == if runs == Some(true) then Active else Expired)
            && (u.status != Limited && u.status != Expired ==> v.status == u.status)
  {
  }

  function AfterUserEvent(u: User, e: UserEvent): User {
    match e
    case Enforcement(blocked) => EnforceUser(u, blocked)
    case UseTraffic(n) =>
      if u.status == Active || u.status == OnHold then u.(used := u.used + ClampDelta(u.used, u.dataLimit, n))
      else u.(overage := u.overage + n)
    case HitLimit => LimitUser(u)
    case RunOut => if u.status == Active then u.(status := Expired) else u
    case LeaveHold => if u.status == OnHold then u.(status := Active) else u
    case ReviewLimited =>
      if u.status != Limited then u
      else if !Unlimited(u.dataLimit) && u.used > u.dataLimit.value then u.(used := u.dataLimit.value)
      else Reactivate(u)
    case Recover => RecoverUser(u)
    case ResetCounters(keepHold) => UsageReset(u, keepHold)
    case Extend(runs, n) => Extended(u, runs, n)
    case BulkDisable(onlyLive) =>
      if !onlyLive || u.status == Active || u.status == OnHold then u.(status := Disabled) else u
    case ChangeOwner(a) => u.(admin := a)
    case RepairImport(n, limit) =>
      u.(used := if n > 0 then n else u.used, dataLimit := if limit != 0 then Some(limit) else u.dataLimit)
    case Edit(c) => Updated(u, c)
    case Renew(plan) => Renewed(u, plan)
    case FireNextPlan(n, add) => NextPlanFired(u, n, add)
    case BulkActivate(s) => if u.status == Disabled then u.(status := s) else u
  }

  /** Traffic is never lost: an account in service uses it up to its limit, and what anyone else
      moves is kept as overage. */
  lemma TrafficIsCounted(u: User, n: nat)
    ensures var v := AfterUserEvent(u, UseTraffic(n));
            && v == u.(used := v.used, overage := v.overage)
            && (u.status != Active && u.status != OnHold ==> v.used == u.used && v.overage == u.overage + n)
            && (u.status == Active || u.status == OnHold ==>
                  && v.overage == u.overage
                  && (u.dataLimit == None || u.dataLimit.value <= 0 || u.used + n <= u.dataLimit.value ==> v.used == u.used + n)
                  && (u.dataLimit.Some? && 0 < u.dataLimit.value && u.used <= u.dataLimit.value < u.used + n ==>
                        v.used == u.dataLimit.value))
  {
  }

  /** The events that only move a status: expiry ends a running account, first use a hold, and a bulk
      disable takes everyone, or only those in service; a bulk activation takes the disabled. */
  lemma StatusEventsMean(u: User, onlyLive: bool, s: UserStatus)
    ensures AfterUserEvent(u, RunOut) == u.(status := if u.status == Active then Expired else u.status)
    ensures AfterUserEvent(u, LeaveHold) == u.(status := if u.status == OnHold then Active else u.status)
    ensures var v := AfterUserEvent(u, BulkDisable(onlyLive));
            v == u.(status := v.status) &&
            v.status == if onlyLive && (u.status == Limited || u.status == Expired) then u.status else Disabled
    ensures AfterUserEvent(u, BulkActivate(s)) == u.(status := if u.status == Disabled then s else u.status)
  {
  }

  /** The review of a limited account first cuts its usage to the limit, and otherwise brings it back
      exactly when it has room and no overage; an import overwrites only what it has a value for. */
  lemma ReviewAndImportMean(u: User, used: nat, limit: int)
    ensures var v := AfterUserEvent(u, ReviewLimited);
            && v == u.(used := v.used, status := v.status)
            && (u.status == Limited && (u.dataLimit == None || u.dataLimit.value <= 0 || u.used < u.dataLimit.value) ==>
                  v.used == u.used && (v.status == Active <==> u.overage <= 0))
            && (u.status == Limited && u.dataLimit.Some? && 0 < u.dataLimit.value <= u.used ==>
                  v.status == Limited && v.used == u.dataLimit.value)
            && (u.status != Limited ==> v == u)
    ensures var v := AfterUserEvent(u, RepairImport(used, limit));
            && v == u.(used := v.used, dataLimit := v.dataLimit)
            && v.used == (if used == 0 then u.used else used)
            && v.dataLimit == (if limit == 0 then u.dataLimit else Some(limit))
  {
  }

  function AfterUserEvents(u: User, es: seq<UserEvent>): User
    decreases |es|
  {
    if es == [] then u else AfterUserEvents(AfterUserEvent(u, es[0]), es[1..])
  }

  /** The events that put a disabled user back into another status without looking at the
      suspension mark: an explicit status, a renewal, a next plan, a bulk activation. */
  predicate Lifts(u: User, e: UserEvent) {
    match e
    case Edit(c) => c.status.Some? && c.status.value != Disabled
    case Renew(_) => true
    case FireNextPlan(_, add) => add || u.dataLimit.Some?
    case BulkActivate(s) => s != Disabled
    case _ => false
  }

  lemma UpdatedKeepsMark(u: User, c: Change)
    ensures var v := Updated(u, c);
            && v.capped == u.capped && v.admin == u.admin
            && (u.status == Disabled ==> (v.status == Disabled <==> c.status == None || c.status == Some(Disabled)))
  {
  }

  lemma RenewedKeepsMark(u: User, plan: Option<int>)
    ensures var v := Renewed(u, plan); v.capped == u.capped && v.admin == u.admin && v.status == Active
  {
  }

  /** An event keeps suspended users disabled exactly when it is not one of those on a suspended user. */
  lemma CappedMeansDisabledIff(u: User, e: UserEvent)
    requires CappedMeansDisabled(u)
    ensures CappedMeansDisabled(AfterUserEvent(u, e)) <==> !(u.capped && Lifts(u, e))
  {
    hide Updated, Renewed;
    if e.Edit? { UpdatedKeepsMark(u, e.change); }
    if e.Renew? { RenewedKeepsMark(u, e.plan); }
  }

  /** The input at which it shows: a suspended user whose plan is renewed is active and still marked. */
  lemma RenewalLiftsSuspension(u: User, plan: Option<int>)
    requires u.capped && u.status == Disabled
    ensures var v := AfterUserEvent(u, Renew(plan)); v.status == Active && v.capped
  {
  }

  ghost predicate NeverLifted(u: User, es: seq<UserEvent>)
    decreases |es|
  {
    es == [] || (!Lifts(u, es[0]) && NeverLifted(AfterUserEvent(u, es[0]), es[1..]))
  }

  /** The events happen while the reseller `a` owns the user and is blocked at every pass. */
  ghost predicate UnderBlock(a: AdminId, es: seq<UserEvent>) {
    forall k :: 0 <= k < |es| ==> !es[k].ChangeOwner? && (es[k].Enforcement? ==> a in es[k].blocked)
  }

  /** While its reseller stays blocked nothing at all removes a user's suspension mark, and the
      suspension itself is lifted only by the events above; a pass ends even that. */
  lemma {:induction false} SuspensionHolds(u: User, a: AdminId, es: seq<UserEvent>)
    requires u.capped && u.admin == Some(a) && UnderBlock(a, es)
    ensures var v := AfterUserEvents(u, es);
            && v.capped && v.admin == Some(a)
            && (u.status == Disabled && NeverLifted(u, es) ==> v.status == Disabled)
    decreases |es|
  {
    if es != [] {
      hide AfterUserEvent, Lifts;
      EventUnderBlock(u, a, es[0]);
      SuspensionHolds(AfterUserEvent(u, es[0]), a, es[1..]);
    }
  }

  lemma EventUnderBlock(u: User, a: AdminId, e: UserEvent)
    requires u.capped && u.admin == Some(a) && !e.ChangeOwner? && (e.Enforcement? ==> a in e.blocked)
    ensures var v := AfterUserEvent(u, e);
            v.capped && v.admin == Some(a) && (u.status == Disabled && !Lifts(u, e) ==> v.status == Disabled)
  {
    hide Updated, Renewed;
    if e.Edit? { UpdatedKeepsMark(u, e.change); }
    if e.Renew? { RenewedKeepsMark(u, e.plan); }
  }

  /** Whatever lifted a suspension, the next pass restores it: a user of a blocked reseller that is
      active before the pass is suspended after it, and none is active. */
  lemma LiftedUserIsSuspendedAgain(u: User, a: AdminId, es: seq<UserEvent>, blocked: set<AdminId>)
    requires u.capped && u.admin == Some(a) && UnderBlock(a, es) && a in blocked
    ensures var v := AfterUserEvents(u, es);
            var w := EnforceUser(v, blocked);
            && w.capped && w.status != Active
            && (v.status == Active ==> w == v.(status := Disabled))
            && (v.status != Active ==> w == v)
  {
    SuspensionHolds(u, a, es);
  }

  /** A block followed by an unblock returns an active user to active, or to limited exactly when the
      quota is used up, whatever happened under the block: traffic, edits, renewals, activations. */
  lemma BlockThenUnblock(u: User, a: AdminId, first: set<AdminId>, es: seq<UserEvent>, last: set<AdminId>)
    requires u.status == Active && u.admin == Some(a) && a in first && a !in last && UnderBlock(a, es)
    ensures var held := AfterUserEvents(EnforceUser(u, first), es);
            var v := EnforceUser(held, last);
            && held.capped && (NeverLifted(EnforceUser(u, first), es) ==> held.status == Disabled)
            && v == held.(capped := false, status := if QuotaExhausted(held) then Limited else Active)
  {
    SuspensionHolds(EnforceUser(u, first), a, es);
  }

  // ------------------------------------------------------------------ edits and plans on a session

  /** An edit as it works through the row: status, limit, expiry, and the final reactivation. */
  method UpdateUser(db: Session, id: UserId, c: Change)
    requires id in db.users
    modifies db`users
    ensures db.users == old(db.users)[id := Updated(old(db.users)[id], c)]
  {
    var u := db.users[id];
    if c.status.Some? { u := u.(status := c.status.value); }
    if c.limit.Some? {
      var n := c.limit.value;
      var limit := if n == 0 then None else Some(n as int);
      u := ApplyOverage(u.(dataLimit := limit), limit);
      if limit.Some? && u.used > n { u := u.(used := n); }
      if c.status == None && u.status != Expired && u.status != Disabled {
        if limit == None || u.used < n {
          if u.status != OnHold { u := u.(status := Active); }
        } else {
          u := u.(status := Limited);
        }
      }
    }
    if c.runs.Some? && c.status == None && (u.status == Active || u.status == Expired) {
      u := u.(status := if c.runs.value then Active else Expired);
    }
    if c.status != Some(Limited) || c.limit.Some? { u := Reactivate(u); }
    db.users := db.users[id := u];
  }

  /** The limit is worked out from the old usage before the counters are reset. */
  method ApplyPlanToUser(db: Session, id: UserId, plan: Option<int>)
    requires id in db.users
    modifies db`users
    ensures db.users == old(db.users)[id := Renewed(old(db.users)[id], plan)]
  {
    hide Updated;
    var limit := RenewalLimit(db.users[id], plan);
    if db.users[id].used > 0 || db.users[id].overage > 0 {
      db.users := db.users[id := UsageReset(db.users[id], false)];
    }
    UpdateUser(db, id, Change(Some(Active), Some(limit), Some(true)));
  }

  // ------------------------------------------------------------------ the enforcement pass

  function OverCap(b: Books): set<AdminId> {
    set a | a in b.admins && !b.admins[a].isSudo && b.admins[a].trafficCap.Some? &&
            b.admins[a].usersUsage >= b.admins[a].trafficCap.value
  }

  method ResellersOverTrafficCap(db: Session) returns (over: set<AdminId>, under: set<AdminId>)
    ensures over == OverCap(db.Contents())
    ensures forall a :: a in over <==> a in db.admins && !db.admins[a].isSudo && db.admins[a].trafficCap.Some? &&
                                       db.admins[a].trafficCap.value <= db.admins[a].usersUsage
    ensures forall a :: a in under <==> a in db.admins && !db.admins[a].isSudo && db.admins[a].trafficCap.Some? && a !in over
  {
    over, under := {}, {};
    var rows := set a | a in db.admins && !db.admins[a].isSudo && db.admins[a].trafficCap.Some?;
    var todo := rows;
    while todo != {}
      invariant todo <= rows
      invariant forall a :: a in over <==> a in rows - todo && db.admins[a].usersUsage >= db.admins[a].trafficCap.value
      invariant forall a :: a in under <==> a in rows - todo && !(db.admins[a].usersUsage >= db.admins[a].trafficCap.value)
      decreases |todo|
    {
      var a :| a in todo;
      if db.admins[a].usersUsage >= db.admins[a].trafficCap.value { over := over + {a}; } else { under := under + {a}; }
      todo := todo - {a};
    }
  }

  method SuspendUsers(db: Session, blocked: set<AdminId>) returns (newly: set<UserId>)
    modifies db`users
    ensures newly == set id | id in old(db.users) && Belongs(old(db.users)[id], blocked) && old(db.users)[id].status == Active
    ensures db.users == map id | id in old(db.users) :: SuspendUser(old(db.users)[id], blocked)
  {
    var rows := set id | id in db.users && Belongs(db.users[id], blocked) && db.users[id].status == Active;
    newly := {};
    var todo := rows;
    while todo != {}
      invariant todo <= rows && newly == rows - todo && db.users.Keys == old(db.users).Keys
      invariant forall id :: id in db.users ==>
        db.users[id] == if id in todo then old(db.users)[id] else SuspendUser(old(db.users)[id], blocked)
      decreases |todo|
    {
      var id :| id in todo;
      var u := db.users[id];
      db.users := db.users[id := u.(status := Disabled, capped := true)];
      newly := newly + {id};
      todo := todo - {id};
    }
    assert newly == rows;
  }

  method RestoreUsers(db: Session, blocked: set<AdminId>) returns (reactivated: set<UserId>)
    modifies db`users
    ensures reactivated == set id | id in old(db.users) && Restorable(old(db.users)[id], blocked) &&
                                    !QuotaExhausted(old(db.users)[id])
    ensures db.users == map id | id in old(db.users) :: RestoreUser(old(db.users)[id], blocked)
  {
    var rows := set id | id in db.users && db.users[id].capped && db.users[id].admin.Some?;
    reactivated := {};
    var todo := rows;
    while todo != {}
      invariant todo <= rows && db.users.Keys == old(db.users).Keys
      invariant reactivated == set id | id in rows - todo && Restorable(old(db.users)[id], blocked) &&
                                        !QuotaExhausted(old(db.users)[id])
      invariant forall id :: id in db.users ==>
        db.users[id] == if id in todo then old(db.users)[id] else RestoreUser(old(db.users)[id], blocked)
      decreases |todo|
    {
      var id :| id in todo;
      var u := db.users[id];
      if u.admin.value !in blocked {
        if QuotaExhausted(u) {
          db.users := db.users[id := u.(capped := false, status := Limited)];
        } else {
          db.users := db.users[id := u.(capped := false, status := Active)];
          reactivated := reactivated + {id};
        }
      }
      todo := todo - {id};
    }
  }

  /** What the pass makes of a user whose reseller must, or must not, be held: an active user is
      disabled and marked; a marked one is released, to limited when its quota is used up. */
  ghost predicate PassedOver(x: User, y: User, hold: bool) {
    y == if hold then if x.status == Active then x.(status := Disabled, capped := true) else x
         else if !x.capped then x
         else x.(capped := false,
                 status := match x.dataLimit
                           case None => Active
                           case Some(n) => if 0 < n <= x.used then Limited else Active)
  }

  /** The whole pass over the users of the resellers that are over their cap or cannot pay. */
  method EnforceResellerTrafficCaps(db: Session, unpaid: set<AdminId>)
    returns (newly: set<UserId>, reactivated: set<UserId>)
    modifies db`users
    ensures db.users == Enforced(old(db.users), OverCap(db.Contents()) + unpaid)
    ensures forall id :: id in old(db.users) && old(db.users)[id].admin.Some? ==>
              var a := old(db.users)[id].admin.value;
              id in db.users &&
              PassedOver(old(db.users)[id], db.users[id],
                         || a in unpaid
                         || (a in db.admins && !db.admins[a].isSudo && db.admins[a].trafficCap.Some? &&
                             db.admins[a].trafficCap.value <= db.admins[a].usersUsage))
    ensures forall id :: id in reactivated ==> id in db.users && db.users[id].status == Active && !db.users[id].capped
    ensures forall id :: id in newly ==> id in db.users && db.users[id].status == Disabled && db.users[id].capped
  {
    var over, _ := ResellersOverTrafficCap(db);
    var blocked := over + unpaid;
    newly := SuspendUsers(db, blocked);
    reactivated := RestoreUsers(db, blocked);
  }
}
