/** Conservation of traffic over whole runs of the panel: every byte is billed at most once, and
    exactly once when no usage counter is reset. */
module TrafficRuns {
  import opened Base
  import opened Tables
  import opened Ledger
  import opened UsageBilling
  import opened Quota
  import opened Payments
  import opened PanelRuns

  /** The checkpoint exists and has not been overtaken by a counter reset. */
  predicate Tracked(m: Admin) { m.checkpoint.Some? && m.checkpoint.value <= m.usersUsage }

  /** `c` differs from `b` in nothing that the billing of `x` looks at. */
  ghost predicate Quiet(b: Books, c: Books, x: AdminId)
    requires x in b.admins
  {
    && x in c.admins && c.settlements == b.settlements && Metered(c, x) == Metered(b, x)
    && c.admins[x].usersUsage == b.admins[x].usersUsage && Watermark(c.admins[x]) == Watermark(b.admins[x])
    && (b.admins[x].checkpoint.Some? ==> c.admins[x].checkpoint == b.admins[x].checkpoint)
  }

  /** At most one settlement is added; one of `x` starts at the old watermark and ends at the new
      one; the watermark never falls; and a tracked reseller's bytes are all accounted for. */
  ghost predicate Forward(b: Books, c: Books, x: AdminId)
    requires x in b.admins
  {
    && x in c.admins
    && Watermark(b.admins[x]) <= Watermark(c.admins[x])
    && (c.settlements == b.settlements || exists s: Settlement ::
          && c.settlements == b.settlements + [s]
          && (s.admin == x ==> Watermark(b.admins[x]) == s.low <= s.high == Watermark(c.admins[x])))
    && (Tracked(b.admins[x]) ==>
          && Tracked(c.admins[x]) && Slack(c, x) == Slack(b, x)
          && MovedBytes(c.settlements, x) - MovedBytes(b.settlements, x)
               == c.admins[x].checkpoint.value - b.admins[x].checkpoint.value)
  }

  // ------------------------------------------------------------------ one step

  lemma PostingIsQuiet(b: Books, tx: Transaction, skip: bool, x: AdminId)
    requires x in b.admins
    ensures Quiet(b, AfterTransaction(b, tx, skip), x)
  {
    hide AfterTransaction;
    TransactionKeepsTables(b, tx, skip);
  }

  lemma SweepIsQuiet(b: Books, rs: map<AdminId, Ratio>, x: AdminId)
    requires x in b.admins
    ensures Quiet(b, Swept(b, rs), x)
  {
    hide Owes, Owing;
  }

  lemma MoveIsQuiet(b: Books, m: Move, x: AdminId)
    requires x in b.admins
    ensures Quiet(b, Moved(b, m), x)
  {
    hide AfterTransaction;
    if m.Post? { PostingIsQuiet(b, m.tx, false, x); }
  }

  lemma CommissionIsQuiet(b: Books, a: AdminId, debit: int, ref: Reference, x: AdminId)
    requires x in b.admins
    ensures Quiet(b, AfterCommission(b, a, debit, ref), x)
  {
    hide AfterTransaction;
    var due := CommissionFor(b, a, debit);
    if due.Some? { PostingIsQuiet(b, Transaction(due.value.0, due.value.1, CommissionCredit, ref), true, x); }
  }

  lemma PurchaseIsQuiet(b: Books, cat: Catalog, a: AdminId, id: nat, x: AdminId)
    requires x in b.admins
    ensures Quiet(b, AfterPurchase(b, cat, a, id), x)
  {
    hide AfterCommission, CommissionFor;
    var r := PackageResult(b, cat, a, id);
    if r.Granted? && r.price > 0 {
      var t := WithTraffic(Entered(WithWallet(b, a), Transaction(a, -r.price, PackageSale, OtherRef)), a, r.bytes, r.price);
      CommissionIsQuiet(t, a, -r.price, OtherRef, x);
    }
  }

  lemma PayInvoiceIsQuiet(b: Books, id: nat, x: AdminId)
    requires x in b.admins
    ensures Quiet(b, AfterPayInvoice(b, id), x)
  {
    hide AfterTransaction;
    if InvoiceResult(b, id) == NowPaid {
      var i := b.invoices[id];
      var c := WithWallet(b, i.admin).(invoices := b.invoices[id := i.(status := InvoicePaid)]);
      PostingIsQuiet(c, Transaction(i.admin, -i.amount, InvoicePayment, InvoiceRef(id)), false, x);
    }
  }

  lemma BooksOpIsQuiet(b: Books, op: Op, x: AdminId)
    requires x in b.admins && !op.RecordTraffic? && !op.ResetUsage? && !op.Bill?
    ensures Quiet(b, BooksAfter(b, op), x)
  {
    hide AfterTransaction, AfterPurchase, AfterPayInvoice;
    match op
    case PayIssued(id) => PayInvoiceIsQuiet(b, id, x);
    case BuyPackage(cat, a, id) => PurchaseIsQuiet(b, cat, a, id, x);
    case AdjustWallet(a, amount) =>
      PostingIsQuiet(b, Transaction(a, amount, if amount > 0 then Credit else Debit, OtherRef), true, x);
    case _ =>
  }

  lemma BilledIsForward(b: Books, a: AdminId, q: Quote, x: AdminId)
    requires a in b.admins && x in b.admins
    requires Outcome(b, a, q) == NothingNew ==> Unbilled(b.admins[a]) == 0
    ensures Forward(b, Billed(b, a, q), x)
  {
    hide AfterTransaction, Billed;
    BilledTables(b, a, q);
    BilledKeepsSlack(b, a, q, x);
    MovedSnoc(b.settlements, SettlementOf(a, b.admins[a], q), x);
    assert b.settlements + [] == b.settlements;
  }

  lemma BillIsForward(b: Books, a: AdminId, r: Ratio, x: AdminId)
    requires a in b.admins && x in b.admins
    ensures var c := AfterBill(b, a, r); x in c.admins && Forward(b, c, x) && Slack(b, x) <= Slack(c, x)
  {
    hide QuoteFor, Billed, Forward;
    if BillResult(b, a, r) == NothingNew { NothingNewMeansBilled(b, a, r); }
    BilledIsForward(b, a, QuoteFor(b.admins[a], RateFor(b, b.admins[a]), r), x);
    BillKeepsSlack(b, a, r, x);
  }

  lemma TrafficIsForward(b: Books, a: AdminId, n: nat, x: AdminId)
    requires x in b.admins
    ensures Forward(b, AfterTraffic(b, a, n), x)
  {
    TrafficKeepsSlack(b, a, n, 0, x);
  }

  lemma QuietAround(b: Books, c: Books, d: Books, e: Books, x: AdminId)
    requires x in b.admins && Quiet(b, c, x) && x in d.admins && Quiet(d, e, x)
    ensures Slack(b, x) == Slack(c, x) && Slack(d, x) == Slack(e, x)
    ensures Forward(c, d, x) ==> Forward(b, e, x)
  {
  }

  lemma QuietIsForward(b: Books, c: Books, x: AdminId)
    requires x in b.admins && Quiet(b, c, x)
    ensures x in c.admins && Forward(b, c, x) && Slack(b, x) == Slack(c, x)
  {
  }

  lemma StandingStill(b: Books, x: AdminId)
    requires x in b.admins
    ensures Quiet(b, b, x) && Forward(b, b, x)
  {
  }

  lemma ToppedUpIsForward(b: Books, i: Intent, id: nat, f: FollowUp, x: AdminId)
    requires x in b.admins
    ensures var c := ToppedUp(b, i, id, f); x in c.admins && Forward(b, c, x) && Slack(b, x) <= Slack(c, x)
  {
    hide AfterTransaction, AfterBill, Quiet, Forward, Slack;
    var c := AfterTransaction(b, TopupLine(i, id), false);
    PostingIsQuiet(b, TopupLine(i, id), false, x);
    QuietIsForward(b, c, x);
    if !f.Nothing? && i.admin in c.admins {
      var d := AfterBill(c, i.admin, f.ratio);
      BillIsForward(c, i.admin, f.ratio, x);
      StandingStill(d, x);
      QuietAround(b, c, d, d, x);
    }
  }

  lemma CompleteIsForward(p: Panel, id: nat, e: Effects, x: AdminId)
    requires x in p.books.admins
    ensures var c := AfterComplete(p, id, e).books;
            x in c.admins && Forward(p.books, c, x) && Slack(p.books, x) <= Slack(c, x)
  {
    hide ToppedUp, Moved, WholesaleMove, WholesaleFails, UsersAfterPortal, Swept, Enforced, BlockedNow, Quiet, Forward, Slack;
    StandingStill(p.books, x);
    if id < |p.intents| {
      var i, f := p.intents[id], e.followUp;
      var c := ToppedUp(p.books, i, id, f);
      ToppedUpIsForward(p.books, i, id, f, x);
      if f.SettleAndEnforce? {
        SweepIsQuiet(c, f.ratios, x);
        QuietIsForward(c, Swept(c, f.ratios), x);
        QuietAround(p.books, p.books, c, Swept(c, f.ratios), x);
      }
      if i.target in p.users {
        var m := WholesaleMove(p.books, p.users[i.target].admin, e.wholesale);
        MoveIsQuiet(p.books, m, x);
        QuietIsForward(p.books, Moved(p.books, m), x);
      }
    }
  }

  lemma BooksOpIsForward(b: Books, op: Op, x: AdminId)
    requires x in b.admins
    ensures var c := BooksAfter(b, op);
            && x in c.admins && Slack(b, x) <= Slack(c, x)
            && (!(op.ResetUsage? && op.admin == x) ==> Forward(b, c, x))
  {
    if op.RecordTraffic? {
      TrafficIsForward(b, op.admin, op.bytes, x);
      TrafficKeepsSlack(b, op.admin, op.bytes, 0, x);
    } else if op.ResetUsage? {
      TrafficKeepsSlack(b, op.admin, 0, op.usage, x);
    } else if op.Bill? {
      hide AfterBill, Forward, Slack;
      StandingStill(b, x);
      if op.admin in b.admins { BillIsForward(b, op.admin, op.ratio, x); }
    } else {
      hide BooksAfter, Forward, Slack, Quiet;
      BooksOpIsQuiet(b, op, x);
      QuietIsForward(b, BooksAfter(b, op), x);
    }
  }

  lemma StepIsForward(p: Panel, op: Op, x: AdminId)
    requires x in p.books.admins
    ensures var c := Step(p, op).books;
            && x in c.admins && Slack(p.books, x) <= Slack(c, x)
            && (!(op.ResetUsage? && op.admin == x) ==> Forward(p.books, c, x))
  {
    hide AfterComplete, BooksAfter, Swept, Quiet, Forward, Slack, Enforced, BlockedNow, AfterUserEvent, ExpireOverdue,
         Moved, PortalMove, PortalRefuses, SellMove, Renewed, Activation;
    StandingStill(p.books, x);
    if !OnPanel(op) {
      hide Step;
      StepOnBooks(p, op);
      BooksOpIsForward(p.books, op, x);
      return;
    }
    match op
    case Approve(id, may, e) => CompleteIsForward(p, id, e, x);
    case Complete(id, e) => CompleteIsForward(p, id, e, x);
    case Enforce(on, rs) =>
      SweepIsQuiet(p.books, rs, x);
      QuietIsForward(p.books, Swept(p.books, rs), x);
    case SellPlan(u, price, plan) =>
      if u in p.users && HasPayer(p.users[u].admin) {
        MoveIsForward(p.books, SellMove(p.books, p.users[u].admin.value, price), x);
      }
    case PortalRenewal(login, u, price, plan, w, methods) =>
      if login in p.users { MoveIsForward(p.books, PortalMove(p.books, p.users[login].admin, price, w, methods), x); }
    case _ =>
  }

  lemma MoveIsForward(b: Books, m: Move, x: AdminId)
    requires x in b.admins
    ensures x in Moved(b, m).admins && Forward(b, Moved(b, m), x) && Slack(b, x) == Slack(Moved(b, m), x)
  {
    hide Moved, Quiet, Forward, Slack;
    MoveIsQuiet(b, m, x);
    QuietIsForward(b, Moved(b, m), x);
  }

  // ------------------------------------------------------------------ whole runs

  /** In every run, whatever counters are reset: the bytes a reseller's watermark moved over and
      those still waiting are never more than the traffic recorded in the run and the bytes that
      were waiting before it. */
  lemma {:induction false} NoByteBilledTwice(p: Panel, ops: seq<Op>, x: AdminId)
    requires x in p.books.admins
    ensures var b, c := p.books, Exec(p, ops).books;
            && x in c.admins
            && MovedBytes(c.settlements, x) - MovedBytes(b.settlements, x) + Unbilled(c.admins[x])
                 <= Metered(c, x) - Metered(b, x) + Unbilled(b.admins[x])
    decreases |ops|
  {
    if ops != [] {
      hide Step;
      StepIsForward(p, ops[0], x);
      NoByteBilledTwice(Step(p, ops[0]), ops[1..], x);
    }
  }

  ghost predicate NoReset(ops: seq<Op>, x: AdminId) {
    forall k :: 0 <= k < |ops| ==> !(ops[k].ResetUsage? && ops[k].admin == x)
  }

  /** Without a reset nothing is lost either: the watermark moves over each recorded byte once,
      and the bytes settled are exactly the advance of the checkpoint. */
  lemma {:induction false} EveryByteBilledOnce(p: Panel, ops: seq<Op>, x: AdminId)
    requires x in p.books.admins && Tracked(p.books.admins[x]) && NoReset(ops, x)
    ensures var b, c := p.books, Exec(p, ops).books;
            && x in c.admins && Tracked(c.admins[x])
            && MovedBytes(c.settlements, x) - MovedBytes(b.settlements, x) + Unbilled(c.admins[x])
                 == Metered(c, x) - Metered(b, x) + Unbilled(b.admins[x])
            && MovedBytes(c.settlements, x) - MovedBytes(b.settlements, x)
                 == c.admins[x].checkpoint.value - b.admins[x].checkpoint.value
    decreases |ops|
  {
    if ops != [] {
      hide Step;
      StepIsForward(p, ops[0], x);
      EveryByteBilledOnce(Step(p, ops[0]), ops[1..], x);
    }
  }

  /** The byte intervals of a reseller's settlements follow one another without overlap, up to
      the watermark. */
  ghost predicate Chained(ss: seq<Settlement>, x: AdminId, watermark: int) {
    && (forall i, j :: 0 <= i < j < |ss| && ss[i].admin == x && ss[j].admin == x ==> ss[i].high <= ss[j].low)
    && (forall i :: 0 <= i < |ss| && ss[i].admin == x ==> ss[i].low <= ss[i].high <= watermark)
  }

  lemma ForwardKeepsChained(b: Books, c: Books, x: AdminId)
    requires x in b.admins && Forward(b, c, x) && Chained(b.settlements, x, Watermark(b.admins[x]))
    ensures x in c.admins && Chained(c.settlements, x, Watermark(c.admins[x]))
  {
  }

  lemma {:induction false} BilledIntervalsNeverOverlap(p: Panel, ops: seq<Op>, x: AdminId)
    requires x in p.books.admins && NoReset(ops, x)
    requires Chained(p.books.settlements, x, Watermark(p.books.admins[x]))
    ensures var c := Exec(p, ops).books; x in c.admins && Chained(c.settlements, x, Watermark(c.admins[x]))
    decreases |ops|
  {
    if ops != [] {
      hide Step, Forward, Chained, Slack;
      StepIsForward(p, ops[0], x);
      ForwardKeepsChained(p.books, Step(p, ops[0]).books, x);
      BilledIntervalsNeverOverlap(Step(p, ops[0]), ops[1..], x);
    }
  }

  /** The charges of any run at one rate and without discount: the units debited times a gigabyte
      never exceed rate times bytes charged, and miss it by less than two gigabytes a charge. */
  lemma ChargesAreFairInEveryRun(p: Panel, ops: seq<Op>, a: AdminId, rate: int)
    requires BooksOk(p.books) && AtRate(Exec(p, ops).books.settlements, a, rate)
    ensures var t := ChargedTotals(Exec(p, ops).books.settlements, a);
            && t.units * GB <= rate * t.bytes <= (t.units + 2 * t.charges) * GB
            && (t.charges > 0 ==> rate * t.bytes < (t.units + 2 * t.charges) * GB)
  {
    BooksAlwaysMatch(p, ops);
    var ss := Exec(p, ops).books.settlements;
    ChargesAreFair(ss, a);
    WorthAtFixedRate(ss, a, rate);
  }

  // ------------------------------------------------------------------ a top-up restores service

  lemma HeldStaysUnpaid(b: Books, a: AdminId, r: Ratio)
    requires a in b.admins && BillResult(b, a, r) == Held
    ensures Unpaid(AfterBill(b, a, r), a, r)
  {
    hide ComputeCharge, Worth, OwnershipSplit, EffectiveRate, ApplyPrepaidCover;
    InsolvencyTestsAgree(b, a, r);
    var c := AfterBill(b, a, r);
    assert c.admins[a] == b.admins[a].(checkpoint := Some(Watermark(b.admins[a])));
    assert UnbilledSplit(c.admins[a], r) == UnbilledSplit(b.admins[a], r);
  }

  /** A bill never changes whether a reseller is unpaid. */
  lemma UnpaidAfterBillIff(b: Books, a: AdminId, r: Ratio)
    requires a in b.admins
    ensures a in AfterBill(b, a, r).admins
    ensures Unpaid(AfterBill(b, a, r), a, r) <==> Unpaid(b, a, r)
    ensures a in OverCap(AfterBill(b, a, r)) <==> a in OverCap(b)
  {
    hide QuoteFor, Unpaid, AfterTransaction;
    InsolvencyTestsAgree(b, a, r);
    BilledTables(b, a, QuoteFor(b.admins[a], RateFor(b, b.admins[a]), r));
    if BillResult(b, a, r) == Held { HeldStaysUnpaid(b, a, r); } else { SettledIsNotBlocked(b, a, r); }
  }

  lemma UnpaidAfterCreditIff(b: Books, tx: Transaction, r: Ratio)
    requires tx.admin in b.admins && tx.amount > 0
    ensures var c, a := AfterTransaction(b, tx, false), tx.admin;
            && c.admins == b.admins
            && (Unpaid(c, a, r) <==> Owes(b, a, r) > 0 && Owes(b, a, r) > Balance(b, a) + tx.amount)
  {
    hide ComputeCharge, OwnershipSplit, EffectiveRate, ApplyPrepaidCover, UnbilledSplit;
  }

  /** Completing a top-up settles the reseller and releases its suspended users at once, exactly
      when it is below its traffic cap and, with billing on, the topped-up wallet can pay what it
      owes; the users come back active, or limited if their own quota is used up. */
  lemma TopupRestoresServiceIff(p: Panel, id: nat, e: Effects, u: UserId)
    requires id < |p.intents| && p.intents[id].kind == TopupIntent && Open(p.intents[id].status)
    requires p.intents[id].amount > 0 && p.intents[id].admin in p.books.admins
    requires e.verified && e.followUp.SettleAndEnforce?
    requires RatioOf(e.followUp.ratios, p.intents[id].admin) == e.followUp.ratio
    requires u in p.users && p.users[u].capped && p.users[u].admin == Some(p.intents[id].admin)
    ensures var a, b := p.intents[id].admin, p.books;
            var q := AfterComplete(p, id, e);
            var owed := Owes(b, a, e.followUp.ratio);
            && u in q.users
            && (q.users[u].capped <==>
                  a in OverCap(b) ||
                  (e.followUp.billingOn && owed > 0 && owed > Balance(b, a) + p.intents[id].amount))
            && (!q.users[u].capped ==> q.users[u].status == if QuotaExhausted(p.users[u]) then Limited else Active)
  {
    hide Unpaid, AfterBill, AfterTransaction, Owes, Swept;
    var i, f := p.intents[id], e.followUp;
    var line := TopupLine(i, id);
    UnpaidAfterCreditIff(p.books, line, f.ratio);
    var b := AfterTransaction(p.books, line, false);
    UnpaidAfterBillIff(b, i.admin, f.ratio);
    var c := ToppedUp(p.books, i, id, f);
    assert c == AfterBill(b, i.admin, f.ratio);
    var blocked := BlockedNow(c, f.billingOn, f.ratios);
    assert i.admin in UnpaidSet(c, f.ratios) <==> Unpaid(c, i.admin, f.ratio);
    assert AfterComplete(p, id, e).users == Enforced(p.users, blocked);
  }
}
