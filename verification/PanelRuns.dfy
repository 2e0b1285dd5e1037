/** Whole runs of the commercial panel: every sequence of traffic, bills, invoices, package
    sales, wallet adjustments, payments, enforcement passes and user events. */
module PanelRuns {
  import opened Base
  import opened Tables
  import opened Ledger
  import opened UsageBilling
  import opened Quota
  import opened Payments

  datatype Op =
    | RecordTraffic(admin: AdminId, bytes: nat)
    | ResetUsage(admin: AdminId, usage: int)
    | Bill(admin: AdminId, ratio: Ratio)
    | Enforce(billingOn: bool, ratios: map<AdminId, Ratio>)
    | IssueInvoice(id: nat, admin: AdminId, amount: int)
    | PayIssued(id: nat)
    | BuyPackage(catalog: Catalog, admin: AdminId, id: nat)
    | GrantTraffic(admin: AdminId, granted: int)
    | AdjustWallet(admin: AdminId, amount: int)
    | EditReseller(admin: AdminId, cap: Option<Option<int>>, percent: Option<int>)
    | SellPlan(user: UserId, price: int, plan: Option<int>)
    | PortalRenewal(login: UserId, user: UserId, price: int, plan: Option<int>, wholesale: Wholesale, methods: bool)
    | CreateTopup(admin: AdminId, amount: int, provider: Provider, maxAmount: int, started: bool)
    | CreatePortal(purchase: bool, admin: AdminId, amount: int, provider: Provider, expiresAt: int, started: bool,
                   user: UserId, plan: Option<int>)
    | SubmitCard(id: nat)
    | Approve(id: nat, mayReview: bool, effects: Effects)
    | Reject(id: nat, mayReview: bool)
    | Expire(now: int, limit: nat)
    | Complete(id: nat, effects: Effects)
    | ActivateAll(owner: Option<AdminId>, holdable: set<UserId>)
    | OnUser(user: UserId, event: UserEvent)

  /** The effect of an operation that works on the books alone. */
  function BooksAfter(b: Books, op: Op): Books {
    match op
    case RecordTraffic(a, n) => AfterTraffic(b, a, n)
    case ResetUsage(a, u) => AfterUsageReset(b, a, u)
    case Bill(a, r) => if a in b.admins then AfterBill(b, a, r) else b
    case IssueInvoice(id, a, amount) =>
      if id in b.invoices then b else b.(invoices := b.invoices[id := Invoice(a, amount, InvoicePending)])
    case PayIssued(id) => AfterPayInvoice(b, id)
    case BuyPackage(cat, a, id) => AfterPurchase(b, cat, a, id)
    case GrantTraffic(a, n) => AfterCreditTraffic(b, a, n)
    case AdjustWallet(a, amount) =>
      AfterTransaction(b, Transaction(a, amount, if amount > 0 then Credit else Debit, OtherRef), true)
    case EditReseller(a, cap, percent) => AfterResellerEdit(b, a, cap, percent)
    case _ => b
  }

  /** An edit of a reseller's traffic cap, which it may also clear, and of its commission. */
  function AfterResellerEdit(b: Books, a: AdminId, cap: Option<Option<int>>, percent: Option<int>): Books {
    if a !in b.admins then b
    else
      var m := b.admins[a];
      WithAdmin(b, a, m.(trafficCap := if cap.Some? then cap.value else m.trafficCap,
                         commissionPercent := if percent.Some? then percent.value else m.commissionPercent))
  }

  /** The disabled users of one admin, or of all, become active, or on hold where that fits. */
  function Activation(p: Panel, owner: Option<AdminId>, holdable: set<UserId>, u: UserId): Option<UserEvent>
    requires u in p.users
  {
    if owner.Some? && p.users[u].admin != owner then None
    else Some(BulkActivate(if u in holdable then OnHold else Active))
  }

  function AfterEventIf(u: User, e: Option<UserEvent>): User { if e.Some? then AfterUserEvent(u, e.value) else u }

  function Step(p: Panel, op: Op): Panel {
    match op
    case Enforce(on, rs) => AfterEnforce(p, on, rs)
    case SellPlan(u, price, plan) => AfterSellPlan(p, u, price, plan)
    case PortalRenewal(login, u, price, plan, w, methods) => AfterPortalRenewal(p, login, u, price, plan, w, methods)
    case CreateTopup(a, amount, provider, max, started) => AfterCreateTopup(p, a, amount, provider, max, started)
    case CreatePortal(purchase, a, amount, provider, expiresAt, started, u, plan) =>
      AfterCreatePortal(p, purchase, a, amount, provider, expiresAt, started, u, plan)
    case SubmitCard(id) => AfterSubmitCard(p, id)
    case Approve(id, may, e) => AfterApprove(p, id, may, e)
    case Reject(id, may) => AfterReject(p, id, may)
    case Expire(now, limit) => p.(intents := ExpireOverdue(p.intents, now, limit))
    case Complete(id, e) => AfterComplete(p, id, e)
    case ActivateAll(owner, holdable) =>
      p.(users := map u | u in p.users :: AfterEventIf(p.users[u], Activation(p, owner, holdable, u)))
    case OnUser(u, e) =>
      if u in p.users then p.(users := p.users[u := AfterUserEvent(p.users[u], e)]) else p
    case _ => p.(books := BooksAfter(p.books, op))
  }

  /** Payments that complete, passes and sales reach the books in their own ways. */
  predicate OnPanel(op: Op) { op.Approve? || op.Complete? || op.Enforce? || op.SellPlan? || op.PortalRenewal? }

  lemma StepOnBooks(p: Panel, op: Op)
    requires !OnPanel(op)
    ensures Step(p, op).books == BooksAfter(p.books, op)
  {
    hide AfterTraffic, AfterUsageReset, AfterBill, AfterPayInvoice, AfterPurchase, AfterCreditTraffic, AfterTransaction,
         AfterResellerEdit, AfterUserEvent, ExpireOverdue, Activation;
  }

  function Exec(p: Panel, ops: seq<Op>): Panel
    decreases |ops|
  {
    if ops == [] then p else Exec(Step(p, ops[0]), ops[1..])
  }

  // ------------------------------------------------------------------ the books always match

  ghost predicate BooksOk(b: Books) {
    WalletsMatchLedger(b) && PrepaidMatches(b) && SettlementsOk(b.settlements)
  }

  lemma SameMoney(b: Books, c: Books)
    requires BooksOk(b) && c.ledger == b.ledger && forall a :: Balance(c, a) == Balance(b, a)
    requires c.purchases == b.purchases && c.settlements == b.settlements
    requires forall a :: a in c.admins ==> a in b.admins && c.admins[a].prepaid == b.admins[a].prepaid
    ensures BooksOk(c)
  {
    forall a ensures Balance(c, a) == LedgerSum(c.ledger, a) {
      assert Balance(b, a) == LedgerSum(b.ledger, a);
    }
  }

  lemma PostingKeepsBooks(b: Books, tx: Transaction, skip: bool)
    requires BooksOk(b)
    ensures BooksOk(AfterTransaction(b, tx, skip))
  {
    hide AfterTransaction;
    TransactionKeepsMatch(b, tx, skip);
  }

  lemma BillKeepsBooks(b: Books, a: AdminId, r: Ratio)
    requires BooksOk(b) && a in b.admins
    ensures BooksOk(AfterBill(b, a, r))
  {
    hide AfterBill;
    BillKeepsWallets(b, a, r);
    BillKeepsPrepaid(b, a, r);
    BillKeepsSettlementsOk(b, a, r);
  }

  lemma PurchaseKeepsSettlements(b: Books, cat: Catalog, a: AdminId, id: nat)
    ensures AfterPurchase(b, cat, a, id).settlements == b.settlements
    ensures AfterPayInvoice(b, id).settlements == b.settlements
  {
    hide AfterTransaction;
    var r := PackageResult(b, cat, a, id);
    if r.Granted? && r.price > 0 {
      var t := WithTraffic(Entered(WithWallet(b, a), Transaction(a, -r.price, PackageSale, OtherRef)), a, r.bytes, r.price);
      var due := CommissionFor(t, a, -r.price);
      if due.Some? { TransactionKeepsTables(t, Transaction(due.value.0, due.value.1, CommissionCredit, OtherRef), true); }
    }
    if InvoiceResult(b, id) == NowPaid {
      var i := b.invoices[id];
      var c := WithWallet(b, i.admin).(invoices := b.invoices[id := i.(status := InvoicePaid)]);
      TransactionKeepsTables(c, Transaction(i.admin, -i.amount, InvoicePayment, InvoiceRef(id)), false);
    }
  }

  lemma BooksOpKeepsBooks(b: Books, op: Op)
    requires BooksOk(b)
    ensures BooksOk(BooksAfter(b, op))
  {
    hide AfterTransaction, AfterBill, AfterPurchase, AfterPayInvoice, WalletsMatchLedger, PrepaidMatches, SettlementsOk;
    match op
    case Bill(a, r) => if a in b.admins { BillKeepsBooks(b, a, r); }
    case PayIssued(id) => PayInvoiceKeeps(b, id); PurchaseKeepsSettlements(b, Catalog(map[], map[]), 0, id);
    case BuyPackage(cat, a, id) => PurchaseKeeps(b, cat, a, id); PurchaseKeepsSettlements(b, cat, a, id);
    case GrantTraffic(a, n) => if Creditable(b, a, n) { WithTrafficKeeps(b, a, n, 0); }
    case AdjustWallet(a, amount) =>
      PostingKeepsBooks(b, Transaction(a, amount, if amount > 0 then Credit else Debit, OtherRef), true);
    case _ => SameMoney(b, BooksAfter(b, op));
  }

  lemma SweptKeepsBooks(b: Books, rs: map<AdminId, Ratio>)
    requires BooksOk(b)
    ensures BooksOk(Swept(b, rs))
  {
    hide Owes, Owing;
    SameMoney(b, Swept(b, rs));
  }

  lemma MoveKeepsBooks(b: Books, m: Move)
    requires BooksOk(b)
    ensures BooksOk(Moved(b, m))
  {
    hide AfterTransaction;
    match m
    case Stay =>
    case Look(a) => SameMoney(b, WithWallet(b, a));
    case Post(tx) => PostingKeepsBooks(b, tx, false);
  }

  lemma ToppedUpKeepsBooks(b: Books, i: Intent, id: nat, f: FollowUp)
    requires BooksOk(b)
    ensures BooksOk(ToppedUp(b, i, id, f))
  {
    hide AfterTransaction, AfterBill, BooksOk;
    var c := AfterTransaction(b, TopupLine(i, id), false);
    PostingKeepsBooks(b, TopupLine(i, id), false);
    if !f.Nothing? && i.admin in c.admins { BillKeepsBooks(c, i.admin, f.ratio); }
  }

  lemma CompleteKeepsBooks(p: Panel, id: nat, e: Effects)
    requires BooksOk(p.books)
    ensures BooksOk(AfterComplete(p, id, e).books)
  {
    hide ToppedUp, Moved, WholesaleMove, WholesaleFails, UsersAfterPortal, Swept, Enforced, BlockedNow, BooksOk;
    if id < |p.intents| {
      var i := p.intents[id];
      ToppedUpKeepsBooks(p.books, i, id, e.followUp);
      if e.followUp.SettleAndEnforce? { SweptKeepsBooks(ToppedUp(p.books, i, id, e.followUp), e.followUp.ratios); }
      if i.target in p.users { MoveKeepsBooks(p.books, WholesaleMove(p.books, p.users[i.target].admin, e.wholesale)); }
    }
  }

  lemma StepKeepsBooks(p: Panel, op: Op)
    requires BooksOk(p.books)
    ensures BooksOk(Step(p, op).books)
  {
    hide AfterComplete, BooksAfter, Swept, Enforced, BlockedNow, BooksOk, Moved, PortalMove, PortalRefuses, SellMove,
         Renewed, AfterUserEvent, Activation, ExpireOverdue;
    match op
    case Enforce(on, rs) => SweptKeepsBooks(p.books, rs);
    case Approve(id, may, e) => CompleteKeepsBooks(p, id, e);
    case Complete(id, e) => CompleteKeepsBooks(p, id, e);
    case SellPlan(u, price, plan) =>
      if u in p.users && HasPayer(p.users[u].admin) {
        MoveKeepsBooks(p.books, SellMove(p.books, p.users[u].admin.value, price));
      }
    case PortalRenewal(login, u, price, plan, w, methods) =>
      if login in p.users { MoveKeepsBooks(p.books, PortalMove(p.books, p.users[login].admin, price, w, methods)); }
    case _ => BooksOpKeepsBooks(p.books, op);
  }

  /** In every run each wallet equals the sum of its ledger lines, commissions included; prepaid
      traffic equals bytes bought or granted less bytes covered and is never negative; and every
      byte the watermark passed is charged, covered or waived, as SettlementOk says. */
  lemma {:induction false} BooksAlwaysMatch(p: Panel, ops: seq<Op>)
    requires BooksOk(p.books)
    ensures BooksOk(Exec(p, ops).books)
    decreases |ops|
  {
    if ops != [] {
      StepKeepsBooks(p, ops[0]);
      BooksAlwaysMatch(Step(p, ops[0]), ops[1..]);
    }
  }

  // ------------------------------------------------------------------ payments

  lemma BooksOpGrows(b: Books, op: Op)
    ensures Grows(b.ledger, BooksAfter(b, op).ledger)
  {
    hide AfterTransaction, AfterBill, AfterPurchase, AfterPayInvoice;
    match op
    case Bill(a, r) => if a in b.admins { BillGrows(b, a, r); }
    case PayIssued(id) => PayInvoiceGrows(b, id);
    case BuyPackage(cat, a, id) => PurchaseGrows(b, cat, a, id);
    case AdjustWallet(a, amount) =>
      TransactionGrows(b, Transaction(a, amount, if amount > 0 then Credit else Debit, OtherRef), true);
    case _ =>
  }

  /** Creating, submitting, rejecting and expiring an intent pay no top-up and write no line. */
  lemma IntentOpPaysNothing(p: Panel, op: Op)
    requires op.CreateTopup? || op.CreatePortal? || op.SubmitCard? || op.Reject? || op.Expire?
    ensures var q := Step(p, op);
            q.books == p.books && SamePaid(p.intents, q.intents) && Preserved(p.intents, q.intents)
  {
    if op.Expire? { ExpiryKeepsPaid(p.intents, op.now, op.limit); }
  }

  lemma OtherOpKeepsIntents(p: Panel, op: Op)
    requires !op.CreateTopup? && !op.CreatePortal? && !op.SubmitCard? && !op.Reject? && !op.Expire?
    requires !op.Approve? && !op.Complete?
    ensures Step(p, op).intents == p.intents && Grows(p.books.ledger, Step(p, op).books.ledger)
  {
    hide BooksAfter, Swept, Enforced, BlockedNow, AfterUserEvent, Moved, PortalMove, PortalRefuses, SellMove, Renewed, Activation;
    match op
    case Enforce(on, rs) => SweptLedger(p.books, rs);
    case SellPlan(u, price, plan) =>
      if u in p.users && HasPayer(p.users[u].admin) {
        SalesAreChecked(p.books, p.users[u].admin, price, NoTariff, false);
        MoveGrows(p.books, SellMove(p.books, p.users[u].admin.value, price));
      }
    case PortalRenewal(login, u, price, plan, w, methods) =>
      if login in p.users {
        SalesAreChecked(p.books, p.users[login].admin, price, w, methods);
        MoveGrows(p.books, PortalMove(p.books, p.users[login].admin, price, w, methods));
      }
    case _ => BooksOpGrows(p.books, op);
  }

  lemma NothingLost(intents: seq<Intent>)
    ensures Preserved(intents, intents)
  {
  }

  lemma StepKeepsPayments(p: Panel, op: Op)
    requires PaymentsMatch(p)
    ensures PaymentsMatch(Step(p, op)) && Preserved(p.intents, Step(p, op).intents)
  {
    hide PaymentsMatch, AfterComplete, BooksAfter, AfterSellPlan, AfterPortalRenewal, AfterEnforce, Activation;
    if op.Approve? || op.Complete? {
      NothingLost(p.intents);
      CompleteKeepsMatch(p, op.id, op.effects);
    } else {
      hide Step;
      if op.CreateTopup? || op.CreatePortal? || op.SubmitCard? || op.Reject? || op.Expire? {
        IntentOpPaysNothing(p, op);
      } else {
        OtherOpKeepsIntents(p, op);
      }
      OrdinaryStepKeepsMatch(p, Step(p, op));
    }
  }

  /** In every run a top-up has exactly one ledger credit of its amount when completed and none
      otherwise, the credits add up to the completed top-ups, and completed, rejected, expired
      and failed intents never change again. */
  lemma {:induction false} PaymentsAlwaysMatch(p: Panel, ops: seq<Op>)
    requires PaymentsMatch(p)
    ensures PaymentsMatch(Exec(p, ops)) && Preserved(p.intents, Exec(p, ops).intents)
    decreases |ops|
  {
    if ops != [] {
      StepKeepsPayments(p, ops[0]);
      PaymentsAlwaysMatch(Step(p, ops[0]), ops[1..]);
    }
  }

  // ------------------------------------------------------------------ solvency

  /** An operator's adjustment stays within the wallet; every other operation checks that itself. */
  predicate Careful(p: Panel, op: Op) {
    op.AdjustWallet? ==> Balance(p.books, op.admin) + op.amount >= 0
  }

  ghost predicate CarefulRun(p: Panel, ops: seq<Op>)
    decreases |ops|
  {
    ops == [] || (Careful(p, ops[0]) && CarefulRun(Step(p, ops[0]), ops[1..]))
  }

  lemma SameBalancesSolvent(b: Books, c: Books)
    requires Solvent(b) && forall a :: Balance(c, a) == Balance(b, a)
    ensures Solvent(c)
  {
    forall a ensures Balance(c, a) >= 0 { assert Balance(b, a) >= 0; }
  }

  lemma SweptKeepsSolvent(b: Books, rs: map<AdminId, Ratio>)
    requires Solvent(b)
    ensures Solvent(Swept(b, rs))
  {
    hide Owes, Owing;
    SameBalancesSolvent(b, Swept(b, rs));
  }

  lemma MoveKeepsSolvent(b: Books, m: Move)
    requires Solvent(b) && Checked(b, m)
    ensures Solvent(Moved(b, m))
  {
    hide AfterTransaction;
    match m
    case Stay =>
    case Look(a) => SameBalancesSolvent(b, WithWallet(b, a));
    case Post(tx) => AffordableDebitKeepsSolvent(b, tx, false);
  }

  lemma CarefulBill(b: Books, a: AdminId, r: Ratio)
    requires BooksOk(b) && Solvent(b) && a in b.admins
    ensures Solvent(AfterBill(b, a, r))
  {
    hide AfterBill;
    BillKeepsWallets(b, a, r);
  }

  lemma CreditKeepsSolvent(b: Books, tx: Transaction, skip: bool)
    requires Solvent(b) && tx.amount >= 0
    ensures Solvent(AfterTransaction(b, tx, skip))
  {
    hide AfterTransaction;
    assert Balance(b, tx.admin) >= 0;
    AffordableDebitKeepsSolvent(b, tx, skip);
  }

  lemma ToppedUpKeepsSolvent(b: Books, i: Intent, id: nat, f: FollowUp)
    requires BooksOk(b) && Solvent(b) && i.amount > 0
    ensures Solvent(ToppedUp(b, i, id, f))
  {
    hide AfterTransaction, AfterBill, BooksOk, Solvent;
    var c := AfterTransaction(b, TopupLine(i, id), false);
    CreditKeepsSolvent(b, TopupLine(i, id), false);
    PostingKeepsBooks(b, TopupLine(i, id), false);
    if !f.Nothing? && i.admin in c.admins { CarefulBill(c, i.admin, f.ratio); }
  }

  lemma CompleteKeepsSolvent(p: Panel, id: nat, e: Effects)
    requires BooksOk(p.books) && Solvent(p.books) && PaymentsMatch(p)
    ensures Solvent(AfterComplete(p, id, e).books)
  {
    hide ToppedUp, Moved, WholesaleMove, WholesaleFails, UsersAfterPortal, Swept, Enforced, BlockedNow, BooksOk, Solvent;
    if id < |p.intents| {
      var i := p.intents[id];
      ToppedUpKeepsSolvent(p.books, i, id, e.followUp);
      if e.followUp.SettleAndEnforce? { SweptKeepsSolvent(ToppedUp(p.books, i, id, e.followUp), e.followUp.ratios); }
      if i.target in p.users {
        var payer := p.users[i.target].admin;
        SalesAreChecked(p.books, payer, 0, e.wholesale, false);
        MoveKeepsSolvent(p.books, WholesaleMove(p.books, payer, e.wholesale));
      }
    }
  }

  lemma BooksOpKeepsSolvent(p: Panel, op: Op)
    requires BooksOk(p.books) && Solvent(p.books) && Careful(p, op)
    ensures Solvent(BooksAfter(p.books, op))
  {
    hide AfterTransaction, AfterBill, AfterPurchase, AfterPayInvoice, Solvent;
    var b := p.books;
    match op
    case Bill(a, r) => if a in b.admins { CarefulBill(b, a, r); }
    case PayIssued(id) => PayInvoiceKeeps(b, id);
    case BuyPackage(cat, a, id) => PurchaseKeeps(b, cat, a, id);
    case AdjustWallet(a, amount) =>
      AffordableDebitKeepsSolvent(b, Transaction(a, amount, if amount > 0 then Credit else Debit, OtherRef), true);
    case _ => SameBalancesSolvent(b, BooksAfter(b, op));
  }

  lemma StepKeepsSolvent(p: Panel, op: Op)
    requires BooksOk(p.books) && PaymentsMatch(p) && Solvent(p.books) && Careful(p, op)
    ensures Solvent(Step(p, op).books)
  {
    hide AfterComplete, BooksAfter, Swept, BooksOk, PaymentsMatch, Solvent, BlockedNow, Enforced, Moved, PortalMove,
         PortalRefuses, SellMove, Renewed, AfterUserEvent, Activation, ExpireOverdue;
    match op
    case Approve(id, may, e) => CompleteKeepsSolvent(p, id, e);
    case Complete(id, e) => CompleteKeepsSolvent(p, id, e);
    case Enforce(on, rs) => SweptKeepsSolvent(p.books, rs);
    case SellPlan(u, price, plan) =>
      if u in p.users && HasPayer(p.users[u].admin) {
        SalesAreChecked(p.books, p.users[u].admin, price, NoTariff, false);
        MoveKeepsSolvent(p.books, SellMove(p.books, p.users[u].admin.value, price));
      }
    case PortalRenewal(login, u, price, plan, w, methods) =>
      if login in p.users {
        SalesAreChecked(p.books, p.users[login].admin, price, w, methods);
        MoveKeepsSolvent(p.books, PortalMove(p.books, p.users[login].admin, price, w, methods));
      }
    case _ => BooksOpKeepsSolvent(p, op);
  }

  /** An adjustment below the balance leaves the wallet negative, by exactly what was missing. */
  lemma UncheckedDebitOverdraws(p: Panel, a: AdminId, amount: int)
    ensures Balance(Step(p, AdjustWallet(a, amount)).books, a) == Balance(p.books, a) + amount
  {
    TransactionMovesWallets(p.books, Transaction(a, amount, if amount > 0 then Credit else Debit, OtherRef), true, a);
  }

  /** An operation leaves every wallet non-negative exactly when it is not an adjustment below the
      balance. */
  lemma StepKeepsSolventIff(p: Panel, op: Op)
    requires BooksOk(p.books) && PaymentsMatch(p) && Solvent(p.books)
    ensures Solvent(Step(p, op).books) <==> Careful(p, op)
  {
    hide Step, BooksOk, PaymentsMatch;
    if Careful(p, op) {
      StepKeepsSolvent(p, op);
    } else {
      UncheckedDebitOverdraws(p, op.admin, op.amount);
      assert Balance(Step(p, op).books, op.admin) < 0;
    }
  }

  ghost predicate SolventThroughout(p: Panel, ops: seq<Op>)
    decreases |ops|
  {
    Solvent(p.books) && (ops == [] || SolventThroughout(Step(p, ops[0]), ops[1..]))
  }

  /** No wallet is negative in any state of a run exactly when no operator's adjustment in it goes
      below the balance at that moment: usage bills, package and plan sales, portal renewals and
      purchases with their wholesale charge, invoices of any amount and top-ups never overdraw. */
  lemma {:induction false} SolventThroughoutIff(p: Panel, ops: seq<Op>)
    requires BooksOk(p.books) && PaymentsMatch(p) && Solvent(p.books)
    ensures SolventThroughout(p, ops) <==> CarefulRun(p, ops)
    decreases |ops|
  {
    if ops != [] {
      hide Step, BooksOk, PaymentsMatch, Solvent, Careful;
      StepKeepsSolventIff(p, ops[0]);
      if Careful(p, ops[0]) {
        StepKeepsBooks(p, ops[0]);
        StepKeepsPayments(p, ops[0]);
        SolventThroughoutIff(Step(p, ops[0]), ops[1..]);
      }
    }
  }

  lemma {:induction false} CarefulRunsNeverOverdraw(p: Panel, ops: seq<Op>)
    requires BooksOk(p.books) && PaymentsMatch(p) && Solvent(p.books) && CarefulRun(p, ops)
    ensures Solvent(Exec(p, ops).books)
    decreases |ops|
  {
    if ops != [] {
      hide Step, BooksOk, PaymentsMatch, Solvent, Careful;
      StepKeepsSolvent(p, ops[0]);
      StepKeepsBooks(p, ops[0]);
      StepKeepsPayments(p, ops[0]);
      CarefulRunsNeverOverdraw(Step(p, ops[0]), ops[1..]);
    }
  }
}
