/** What whole runs of the panel do to its users: suspension, the events that lift it, and the
    passes that restore it. */
module UserRuns {
  import opened Base
  import opened Tables
  import opened Ledger
  import opened UsageBilling
  import opened Quota
  import opened Payments
  import opened PanelRuns

  // ------------------------------------------------------------------ one operation, one event a user

  /** What completing a payment does to a user. */
  function CompletionEvent(p: Panel, id: nat, e: Effects, u: UserId): Option<UserEvent> {
    if id >= |p.intents| || !Open(p.intents[id].status) || !e.verified then None
    else
      var i, f := p.intents[id], e.followUp;
      if i.kind == TopupIntent then
        if f.SettleAndEnforce?
        then Some(Enforcement(BlockedNow(ToppedUp(p.books, i, id, f), f.billingOn, f.ratios))) else None
      else if i.kind == PortalRenew && Reaches(p, id, e) && i.target == u then Some(Renew(i.plan))
      else None
  }

  /** What an operation does to a user, if anything. */
  function EventAt(p: Panel, op: Op, u: UserId): Option<UserEvent>
    requires u in p.users
  {
    match op
    case Enforce(on, rs) => Some(Enforcement(BlockedNow(p.books, on, rs)))
    case SellPlan(x, price, plan) =>
      if x == u && HasPayer(p.users[u].admin) && !SellMove(p.books, p.users[u].admin.value, price).Look?
      then Some(Renew(plan)) else None
    case PortalRenewal(login, x, price, plan, w, methods) =>
      if x == u && login in p.users && !PortalRefuses(p.books, p.users[login].admin, price, w, methods)
      then Some(Renew(plan)) else None
    case Approve(id, may, e) =>
      if id < |p.intents| && p.intents[id].provider == Card && may then CompletionEvent(p, id, e, u) else None
    case Complete(id, e) => CompletionEvent(p, id, e, u)
    case ActivateAll(owner, holdable) => Activation(p, owner, holdable, u)
    case OnUser(x, e) => if x == u then Some(e) else None
    case _ => None
  }

  lemma CompletionActsByEvent(p: Panel, id: nat, e: Effects, u: UserId)
    ensures var q := AfterComplete(p, id, e);
            && (u in p.users ==> u in q.users && q.users[u] == AfterEventIf(p.users[u], CompletionEvent(p, id, e, u)))
            && (u in q.users && u !in p.users ==> !q.users[u].capped)
  {
    hide ToppedUp, Moved, WholesaleMove, WholesaleFails, Swept, BlockedNow, Renewed, EnforceUser;
  }

  /** Users are never lost; each is changed by the operation's event on it and by nothing else; and
      a new one is not suspended. */
  lemma StepActsByEvent(p: Panel, op: Op, u: UserId)
    ensures u in p.users ==> u in Step(p, op).users && Step(p, op).users[u] == AfterEventIf(p.users[u], EventAt(p, op, u))
    ensures u in Step(p, op).users && u !in p.users ==> !Step(p, op).users[u].capped
  {
    hide AfterComplete, CompletionEvent, BooksAfter, Swept, BlockedNow, Moved, PortalMove, PortalRefuses, SellMove,
         Renewed, EnforceUser, Updated, Activation, ExpireOverdue;
    if op.Approve? || op.Complete? { CompletionActsByEvent(p, op.id, op.effects, u); }
    if op.Approve? && op.id < |p.intents| && !Open(p.intents[op.id].status) { ClosedDoesNothing(p, op.id, op.effects, u); }
  }

  /** A bulk activation brings back exactly the disabled users of the admin it is for, or of everyone. */
  lemma ActivationMeans(p: Panel, owner: Option<AdminId>, holdable: set<UserId>, u: UserId)
    requires u in p.users
    ensures var x, q := p.users[u], Step(p, ActivateAll(owner, holdable));
            u in q.users &&
            q.users[u] == if x.status == Disabled && (owner == None || x.admin == owner)
                          then x.(status := if u in holdable then OnHold else Active) else x
  {
  }

  lemma ClosedDoesNothing(p: Panel, id: nat, e: Effects, u: UserId)
    requires id < |p.intents| && !Open(p.intents[id].status)
    ensures CompletionEvent(p, id, e, u) == None
  {
  }

  /** The events of a whole run on one user. */
  function Trace(p: Panel, ops: seq<Op>, u: UserId): seq<UserEvent>
    requires u in p.users
    decreases |ops|
  {
    if ops == [] then []
    else
      StepActsByEvent(p, ops[0], u);
      var e := EventAt(p, ops[0], u);
      (if e.Some? then [e.value] else []) + Trace(Step(p, ops[0]), ops[1..], u)
  }

  /** A run does to a user what its events on that user do. */
  lemma {:induction false} RunActsByEvents(p: Panel, ops: seq<Op>, u: UserId)
    requires u in p.users
    ensures u in Exec(p, ops).users && Exec(p, ops).users[u] == AfterUserEvents(p.users[u], Trace(p, ops, u))
    decreases |ops|
  {
    if ops != [] {
      hide Step, EventAt, AfterUserEvent;
      StepActsByEvent(p, ops[0], u);
      var rest := Trace(Step(p, ops[0]), ops[1..], u);
      RunActsByEvents(Step(p, ops[0]), ops[1..], u);
      var e := EventAt(p, ops[0], u);
      if e.Some? {
        assert ([e.value] + rest)[1..] == rest;
      } else {
        assert [] + rest == rest;
      }
    }
  }

  // ------------------------------------------------------------------ suspended means disabled

  ghost predicate SuspendedAreDisabled(p: Panel) { forall u :: u in p.users ==> CappedMeansDisabled(p.users[u]) }

  /** The operation puts some suspended user into another status. */
  ghost predicate LiftsSomeone(p: Panel, op: Op) {
    exists u :: u in p.users && p.users[u].capped && EventAt(p, op, u).Some? && Lifts(p.users[u], EventAt(p, op, u).value)
  }

  lemma UserKeptIff(p: Panel, op: Op, u: UserId)
    requires u in p.users && CappedMeansDisabled(p.users[u])
    ensures u in Step(p, op).users
    ensures CappedMeansDisabled(Step(p, op).users[u]) <==>
            !(p.users[u].capped && EventAt(p, op, u).Some? && Lifts(p.users[u], EventAt(p, op, u).value))
  {
    hide Step, EventAt, Lifts, AfterUserEvent;
    StepActsByEvent(p, op, u);
    if EventAt(p, op, u).Some? { CappedMeansDisabledIff(p.users[u], EventAt(p, op, u).value); }
  }

  /** An operation keeps all suspended users disabled exactly when it lifts none of them. */
  lemma StepKeepsSuspendedIff(p: Panel, op: Op)
    requires SuspendedAreDisabled(p)
    ensures SuspendedAreDisabled(Step(p, op)) <==> !LiftsSomeone(p, op)
  {
    hide Step, EventAt, Lifts;
    if LiftsSomeone(p, op) {
      var u :| u in p.users && p.users[u].capped && EventAt(p, op, u).Some? && Lifts(p.users[u], EventAt(p, op, u).value);
      UserKeptIff(p, op, u);
    } else {
      forall u | u in Step(p, op).users ensures CappedMeansDisabled(Step(p, op).users[u]) {
        StepActsByEvent(p, op, u);
        if u in p.users { UserKeptIff(p, op, u); }
      }
    }
  }

  ghost predicate DisabledThroughout(p: Panel, ops: seq<Op>)
    decreases |ops|
  {
    SuspendedAreDisabled(p) && (ops == [] || DisabledThroughout(Step(p, ops[0]), ops[1..]))
  }

  ghost predicate NeverLifts(p: Panel, ops: seq<Op>)
    decreases |ops|
  {
    ops == [] || (!LiftsSomeone(p, ops[0]) && NeverLifts(Step(p, ops[0]), ops[1..]))
  }

  /** Suspended users are disabled in every state of a run exactly when no operation of it sets a
      status by hand, renews, fires a next plan or activates in bulk on a suspended user. */
  lemma {:induction false} SuspendedStayDisabledIff(p: Panel, ops: seq<Op>)
    requires SuspendedAreDisabled(p)
    ensures DisabledThroughout(p, ops) <==> NeverLifts(p, ops)
    decreases |ops|
  {
    if ops != [] {
      hide Step, LiftsSomeone, SuspendedAreDisabled;
      StepKeepsSuspendedIff(p, ops[0]);
      if !LiftsSomeone(p, ops[0]) { SuspendedStayDisabledIff(Step(p, ops[0]), ops[1..]); }
    }
  }

  // ------------------------------------------------------------------ what passes restore

  /** Over every run in which the reseller stays blocked at each pass: a suspended user keeps its
      mark whatever is renewed, edited or activated, and after the next pass it is not active; had
      it become active, it is disabled again with everything else as it was. */
  lemma NextPassSuspendsAgain(p: Panel, ops: seq<Op>, u: UserId, a: AdminId, on: bool, rs: map<AdminId, Ratio>)
    requires u in p.users && p.users[u].capped && p.users[u].admin == Some(a) && UnderBlock(a, Trace(p, ops, u))
    requires a in BlockedNow(Exec(p, ops).books, on, rs)
    ensures var q := Exec(p, ops);
            var r := Step(q, Enforce(on, rs));
            && u in q.users && u in r.users
            && q.users[u].capped && r.users[u].capped && r.users[u].status != Active
            && (q.users[u].status == Active ==> r.users[u] == q.users[u].(status := Disabled))
            && (q.users[u].status != Active ==> r.users[u] == q.users[u])
  {
    hide Exec, Trace, BlockedNow, Swept, AfterUserEvents;
    RunActsByEvents(p, ops, u);
    LiftedUserIsSuspendedAgain(p.users[u], a, Trace(p, ops, u), BlockedNow(Exec(p, ops).books, on, rs));
  }

  /** And once a pass finds the reseller no longer blocked, the user is released: active, or limited
      exactly when its quota is used up. */
  lemma FirstFreePassReleases(p: Panel, ops: seq<Op>, u: UserId, a: AdminId, on: bool, rs: map<AdminId, Ratio>)
    requires u in p.users && p.users[u].capped && p.users[u].admin == Some(a) && UnderBlock(a, Trace(p, ops, u))
    requires a !in BlockedNow(Exec(p, ops).books, on, rs)
    ensures var q := Exec(p, ops);
            u in q.users && u in Step(q, Enforce(on, rs)).users &&
            Step(q, Enforce(on, rs)).users[u]
              == q.users[u].(capped := false, status := if QuotaExhausted(q.users[u]) then Limited else Active)
  {
    hide Exec, Trace, BlockedNow, Swept, AfterUserEvents;
    RunActsByEvents(p, ops, u);
    SuspensionHolds(p.users[u], a, Trace(p, ops, u));
  }

  /** A paid renewal in the middle of a block: the suspended customer is active with the new period,
      whether or not the wholesale charge went through, until the next pass disables it again and
      leaves it the new period. */
  lemma RenewalUnderBlock(p: Panel, id: nat, e: Effects, on: bool, rs: map<AdminId, Ratio>)
    requires id < |p.intents| && p.intents[id].kind == PortalRenew && Open(p.intents[id].status) && e.verified
    requires Reaches(p, id, e)
    requires var u := p.users[p.intents[id].target]; u.capped && u.status == Disabled && u.admin.Some?
    requires p.users[p.intents[id].target].admin.value in BlockedNow(AfterComplete(p, id, e).books, on, rs)
    ensures var t := p.intents[id].target;
            var q := Step(p, Complete(id, e));
            var r := Step(q, Enforce(on, rs));
            && t in q.users && q.users[t].status == Active && q.users[t].capped
            && q.users[t] == Renewed(p.users[t], p.intents[id].plan)
            && t in r.users && r.users[t] == q.users[t].(status := Disabled)
  {
    hide BlockedNow, Swept, AfterWholesale, WholesaleFails, Updated;
    RenewedKeepsMark(p.users[p.intents[id].target], p.intents[id].plan);
    RenewalComesBeforeItsCharge(p, id, e);
  }
}
