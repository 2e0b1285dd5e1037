/** What whole runs of the panel do with a reseller's terms: commissions on its debits, and the
    traffic cap that suspends its users. */
module ResellerRuns {
  import opened Base
  import opened Tables
  import opened Ledger
  import opened UsageBilling
  import opened Quota
  import opened Payments
  import opened PanelRuns

  // ------------------------------------------------------------------ the lines an operation adds

  /** `c` is the commission that `d` earns the parent: the percentage of the debit, rounded down. */
  ghost predicate Earned(b: Books, d: Transaction, c: Transaction) {
    && Earning(d) && HasParent(b, d.admin) && b.admins[d.admin].parent == Some(c.admin)
    && PercentOf(b, d.admin) > 0 && c.amount > 0 && FloorOf(c.amount, -d.amount * PercentOf(b, d.admin), 100)
  }

  predicate Sale(tx: Transaction) {
    tx.kind == UsageCharge || tx.kind == PlanSale || tx.kind == PortalSale || tx.kind == PackageSale
  }

  /** The percentage of this debit comes to at least one unit. */
  predicate WorthSharing(b: Books, d: Transaction) {
    d.amount < 0 && HasParent(b, d.admin) && PercentOf(b, d.admin) > 0 && -d.amount * PercentOf(b, d.admin) >= 100
  }

  /** A commission follows the debit that earned it, and a sale worth sharing is followed by its
      commission. */
  ghost predicate LineShared(b: Books, ls: seq<Transaction>, k: nat)
    requires k < |ls|
  {
    && (ls[k].kind == CommissionCredit ==> k > 0 && Earned(b, ls[k - 1], ls[k]))
    && (Sale(ls[k]) && WorthSharing(b, ls[k]) ==> k + 1 < |ls| && ls[k + 1].kind == CommissionCredit)
  }

  ghost predicate Shared(b: Books, ls: seq<Transaction>) {
    forall k: nat :: k < |ls| ==> LineShared(b, ls, k)
  }

  /** The terms of a reseller: all of its row but the counters that traffic and bills move. */
  predicate SameTerms(m: Admin, n: Admin) {
    n == m.(usersUsage := n.usersUsage, checkpoint := n.checkpoint, prepaid := n.prepaid)
  }

  ghost predicate TermsKept(b: Books, c: Books) {
    && c.admins.Keys == b.admins.Keys && c.defaultCommission == b.defaultCommission
    && forall x :: x in b.admins ==> SameTerms(b.admins[x], c.admins[x])
  }

  ghost predicate UsageKept(b: Books, c: Books) {
    forall x :: x in b.admins && x in c.admins ==> c.admins[x].usersUsage == b.admins[x].usersUsage
  }

  /** `c` is `b` with lines added that share as they should; terms and usage are the same. */
  ghost predicate Posted(b: Books, c: Books) {
    && TermsKept(b, c) && UsageKept(b, c)
    && |b.ledger| <= |c.ledger| && c.ledger[..|b.ledger|] == b.ledger && Shared(b, c.ledger[|b.ledger|..])
  }

  lemma SharedUnderSameTerms(b: Books, c: Books, ls: seq<Transaction>)
    requires TermsKept(b, c) && Shared(c, ls)
    ensures Shared(b, ls)
  {
    forall k: nat | k < |ls| ensures LineShared(b, ls, k) {
      assert LineShared(c, ls, k);
      assert ls[k].admin in b.admins ==> SameTerms(b.admins[ls[k].admin], c.admins[ls[k].admin]);
      if k > 0 { assert ls[k - 1].admin in b.admins ==> SameTerms(b.admins[ls[k - 1].admin], c.admins[ls[k - 1].admin]); }
    }
  }

  lemma SharedConcat(b: Books, xs: seq<Transaction>, ys: seq<Transaction>)
    requires Shared(b, xs) && Shared(b, ys)
    ensures Shared(b, xs + ys)
  {
    hide Earned, WorthSharing, Sale;
    forall k: nat | k < |xs + ys| ensures LineShared(b, xs + ys, k) {
      if k < |xs| { assert LineShared(b, xs, k); } else { assert LineShared(b, ys, k - |xs|); }
    }
  }

  lemma PostedTransitive(b: Books, c: Books, d: Books)
    requires Posted(b, c) && Posted(c, d)
    ensures Posted(b, d)
  {
    hide Shared;
    assert TermsKept(b, d) by {
      forall x | x in b.admins ensures SameTerms(b.admins[x], d.admins[x]) { assert SameTerms(c.admins[x], d.admins[x]); }
    }
    var xs, ys := c.ledger[|b.ledger|..], d.ledger[|c.ledger|..];
    SharedUnderSameTerms(b, c, ys);
    SharedConcat(b, xs, ys);
    assert d.ledger == b.ledger + (xs + ys) by { assert d.ledger == d.ledger[..|c.ledger|] + ys; }
  }

  lemma NothingPosted(b: Books, c: Books)
    requires TermsKept(b, c) && UsageKept(b, c) && c.ledger == b.ledger
    ensures Posted(b, c)
  {
    assert c.ledger[|b.ledger|..] == [];
  }

  lemma DueIsEarned(b: Books, d: Transaction)
    ensures var due := DueFor(b, d, false);
            && (due.Some? ==> Earned(b, d, Transaction(due.value.0, due.value.1, CommissionCredit, d.ref)))
            && (Sale(d) && WorthSharing(b, d) ==> due.Some?)
  {
    var c := DebitPaysParent(b, d, false);
    if Earning(d) && HasParent(b, d.admin) && PercentOf(b, d.admin) > 0 {
      FloorOfIff(-d.amount * PercentOf(b, d.admin) / 100, -d.amount * PercentOf(b, d.admin), 100);
    }
  }

  lemma PostingLines(b: Books, tx: Transaction, skip: bool)
    ensures var due := DueFor(b, tx, skip);
            AfterTransaction(b, tx, skip).ledger
              == b.ledger + if due.Some? then [tx, Transaction(due.value.0, due.value.1, CommissionCredit, tx.ref)] else [tx]
  {
    var c := Entered(WithWallet(b, tx.admin), tx);
    assert CommissionFor(c, tx.admin, tx.amount) == CommissionFor(b, tx.admin, tx.amount);
    var due := DueFor(b, tx, skip);
    if due.Some? {
      var line := Transaction(due.value.0, due.value.1, CommissionCredit, tx.ref);
      assert AfterTransaction(c, line, true) == Entered(WithWallet(c, line.admin), line);
      assert AfterTransaction(b, tx, skip) == AfterTransaction(c, line, true);
      assert b.ledger + [tx] + [line] == b.ledger + [tx, line];
    }
  }

  lemma PairIsShared(b: Books, tx: Transaction, due: Option<(AdminId, int)>)
    requires tx.kind != CommissionCredit
    requires due.Some? ==> Earned(b, tx, Transaction(due.value.0, due.value.1, CommissionCredit, tx.ref))
    requires Sale(tx) && WorthSharing(b, tx) ==> due.Some?
    ensures Shared(b, if due.Some? then [tx, Transaction(due.value.0, due.value.1, CommissionCredit, tx.ref)] else [tx])
  {
    hide Earned, WorthSharing;
  }

  lemma PostingIsPosted(b: Books, tx: Transaction, skip: bool)
    requires tx.kind != CommissionCredit && (skip ==> !Sale(tx))
    ensures Posted(b, AfterTransaction(b, tx, skip))
  {
    hide AfterTransaction, CommissionFor, Earned, WorthSharing, Shared, Sale, FloorOf;
    TransactionKeepsTables(b, tx, skip);
    PostingLines(b, tx, skip);
    DueIsEarned(b, tx);
    PairIsShared(b, tx, DueFor(b, tx, skip));
    var c := AfterTransaction(b, tx, skip);
    var due := DueFor(b, tx, skip);
    var ls := if due.Some? then [tx, Transaction(due.value.0, due.value.1, CommissionCredit, tx.ref)] else [tx];
    assert (b.ledger + ls)[|b.ledger|..] == ls && (b.ledger + ls)[..|b.ledger|] == b.ledger;
  }

  // ------------------------------------------------------------------ one step

  lemma MoveIsPosted(b: Books, m: Move)
    requires Checked(b, m)
    ensures Posted(b, Moved(b, m))
  {
    hide AfterTransaction, Posted;
    match m
    case Stay => NothingPosted(b, b);
    case Look(a) => NothingPosted(b, WithWallet(b, a));
    case Post(tx) => PostingIsPosted(b, tx, false);
  }

  lemma SweepIsPosted(b: Books, rs: map<AdminId, Ratio>)
    ensures Posted(b, Swept(b, rs))
  {
    hide Owes, Owing, Posted;
    NothingPosted(b, Swept(b, rs));
  }

  lemma BillIsPosted(b: Books, a: AdminId, r: Ratio)
    requires a in b.admins
    ensures Posted(b, AfterBill(b, a, r))
  {
    hide QuoteFor, Billed;
    BilledIsPosted(b, a, QuoteFor(b.admins[a], RateFor(b, b.admins[a]), r));
  }

  lemma BilledIsPosted(b: Books, a: AdminId, q: Quote)
    requires a in b.admins
    ensures Posted(b, Billed(b, a, q))
  {
    hide AfterTransaction, Posted, SettlementOf;
    var m, c := b.admins[a], Billed(b, a, q);
    if Outcome(b, a, q) == Charged {
      var settled := WithAdmin(b, a, Settled(m, q.covered)).(settlements := b.settlements + [SettlementOf(a, m, q)]);
      var w := WithWallet(settled, a);
      RowIsPosted(b, w, a);
      PostingIsPosted(w, Transaction(a, -q.cost, UsageCharge, OtherRef), false);
      PostedTransitive(b, w, c);
    } else {
      hide Billed;
      BilledTables(b, a, q);
      RowIsPosted(b, c, a);
    }
  }

  lemma RowIsPosted(b: Books, c: Books, a: AdminId)
    requires a in b.admins && a in c.admins && c.admins == b.admins[a := c.admins[a]]
    requires SameTerms(b.admins[a], c.admins[a]) && c.admins[a].usersUsage == b.admins[a].usersUsage
    requires c.defaultCommission == b.defaultCommission && c.ledger == b.ledger
    ensures Posted(b, c)
  {
    hide Posted;
    NothingPosted(b, c);
  }

  lemma PurchaseIsPosted(b: Books, cat: Catalog, a: AdminId, id: nat)
    ensures Posted(b, AfterPurchase(b, cat, a, id))
  {
    hide AfterTransaction, AfterCommission, Posted;
    var r, w, c := PackageResult(b, cat, a, id), WithWallet(b, a), AfterPurchase(b, cat, a, id);
    if r.Granted? && r.price > 0 {
      var tx := Transaction(a, -r.price, PackageSale, OtherRef);
      var granted := WithTraffic(w, a, r.bytes, r.price);
      NothingPosted(b, granted);
      PostingIsPosted(granted, tx, false);
      SaleOrderDoesNotMatter(w, a, r.bytes, r.price);
      PostedTransitive(b, granted, c);
    } else {
      NothingPosted(b, c);
    }
  }

  /** Granting the traffic between the debit and its commission is the same as granting it first. */
  lemma SaleOrderDoesNotMatter(w: Books, a: AdminId, bytes: int, price: int)
    requires a in w.admins && price > 0
    ensures var tx := Transaction(a, -price, PackageSale, OtherRef);
            AfterCommission(WithTraffic(Entered(w, tx), a, bytes, price), a, -price, OtherRef)
              == AfterTransaction(WithTraffic(w, a, bytes, price), tx, false)
  {
    hide AfterCommission;
    var tx := Transaction(a, -price, PackageSale, OtherRef);
    var t := WithTraffic(w, a, bytes, price);
    assert Entered(WithWallet(t, a), tx) == WithTraffic(Entered(w, tx), a, bytes, price) by {
      assert Entered(WithWallet(t, a), tx).wallets == Entered(w, tx).wallets;
    }
  }

  lemma PayInvoiceIsPosted(b: Books, id: nat)
    ensures Posted(b, AfterPayInvoice(b, id))
  {
    hide AfterTransaction, Posted;
    if InvoiceResult(b, id) == NowPaid {
      var i := b.invoices[id];
      var c := WithWallet(b, i.admin).(invoices := b.invoices[id := i.(status := InvoicePaid)]);
      NothingPosted(b, c);
      PostingIsPosted(c, Transaction(i.admin, -i.amount, InvoicePayment, InvoiceRef(id)), false);
      PostedTransitive(b, c, AfterPayInvoice(b, id));
    } else {
      NothingPosted(b, AfterPayInvoice(b, id));
    }
  }

  predicate ChangesRow(op: Op) { op.RecordTraffic? || op.ResetUsage? || op.EditReseller? }

  lemma BooksOpIsPosted(b: Books, op: Op)
    requires !ChangesRow(op)
    ensures Posted(b, BooksAfter(b, op))
  {
    hide AfterTransaction, AfterPurchase, AfterPayInvoice, AfterBill, Posted;
    match op
    case Bill(a, r) => if a in b.admins { BillIsPosted(b, a, r); } else { NothingPosted(b, b); }
    case PayIssued(id) => PayInvoiceIsPosted(b, id);
    case BuyPackage(cat, a, id) => PurchaseIsPosted(b, cat, a, id);
    case AdjustWallet(a, amount) =>
      PostingIsPosted(b, Transaction(a, amount, if amount > 0 then Credit else Debit, OtherRef), true);
    case _ => NothingPosted(b, BooksAfter(b, op));
  }

  lemma ToppedUpIsPosted(b: Books, i: Intent, id: nat, f: FollowUp)
    ensures Posted(b, ToppedUp(b, i, id, f))
  {
    hide AfterTransaction, AfterBill, Posted;
    var c := AfterTransaction(b, TopupLine(i, id), false);
    PostingIsPosted(b, TopupLine(i, id), false);
    if !f.Nothing? && i.admin in c.admins {
      BillIsPosted(c, i.admin, f.ratio);
      PostedTransitive(b, c, AfterBill(c, i.admin, f.ratio));
    }
  }

  lemma CompleteIsPosted(p: Panel, id: nat, e: Effects)
    ensures Posted(p.books, AfterComplete(p, id, e).books)
  {
    hide ToppedUp, Moved, WholesaleMove, WholesaleFails, UsersAfterPortal, Swept, Enforced, BlockedNow, Posted;
    NothingPosted(p.books, p.books);
    if id < |p.intents| {
      var i, f := p.intents[id], e.followUp;
      var c := ToppedUp(p.books, i, id, f);
      ToppedUpIsPosted(p.books, i, id, f);
      if f.SettleAndEnforce? {
        SweepIsPosted(c, f.ratios);
        PostedTransitive(p.books, c, Swept(c, f.ratios));
      }
      if i.target in p.users {
        SalesAreChecked(p.books, p.users[i.target].admin, 0, e.wholesale, false);
        MoveIsPosted(p.books, WholesaleMove(p.books, p.users[i.target].admin, e.wholesale));
      }
    }
  }

  /** Every operation but recorded traffic, a usage reset and an edit leaves all terms and usage, and
      shares what it debits as it should. */
  lemma StepIsPosted(p: Panel, op: Op)
    requires !ChangesRow(op)
    ensures Posted(p.books, Step(p, op).books)
  {
    hide AfterComplete, BooksAfter, Swept, Posted, Enforced, BlockedNow, AfterUserEvent, ExpireOverdue,
         Moved, PortalMove, PortalRefuses, SellMove, Renewed, Activation;
    NothingPosted(p.books, p.books);
    match op
    case Approve(id, may, e) => CompleteIsPosted(p, id, e);
    case Complete(id, e) => CompleteIsPosted(p, id, e);
    case Enforce(on, rs) => SweepIsPosted(p.books, rs);
    case SellPlan(u, price, plan) =>
      if u in p.users && HasPayer(p.users[u].admin) {
        SalesAreChecked(p.books, p.users[u].admin, price, NoTariff, false);
        MoveIsPosted(p.books, SellMove(p.books, p.users[u].admin.value, price));
      }
    case PortalRenewal(login, u, price, plan, w, methods) =>
      if login in p.users {
        SalesAreChecked(p.books, p.users[login].admin, price, w, methods);
        MoveIsPosted(p.books, PortalMove(p.books, p.users[login].admin, price, w, methods));
      }
    case _ => BooksOpIsPosted(p.books, op);
  }

  // ------------------------------------------------------------------ commissions over whole runs

  /** No percentage in force is above a hundred. */
  ghost predicate FairPercents(b: Books) {
    forall a :: a in b.admins ==> PercentOf(b, a) <= 100
  }

  ghost predicate FairPercentsThroughout(p: Panel, ops: seq<Op>)
    decreases |ops|
  {
    FairPercents(p.books) && (ops == [] || FairPercentsThroughout(Step(p, ops[0]), ops[1..]))
  }

  function CommissionsPaid(l: seq<Transaction>): int {
    if l == [] then 0
    else CommissionsPaid(l[..|l| - 1]) + (if l[|l| - 1].kind == CommissionCredit then l[|l| - 1].amount else 0)
  }

  /** What was debited in ways that earn a commission. */
  function DebitsShared(l: seq<Transaction>): int {
    if l == [] then 0
    else DebitsShared(l[..|l| - 1]) + (if Earning(l[|l| - 1]) then -l[|l| - 1].amount else 0)
  }

  /** Every commission among the lines follows a debit that is at least as large. */
  ghost predicate Backed(ls: seq<Transaction>) {
    forall k :: 0 <= k < |ls| && ls[k].kind == CommissionCredit ==>
      k > 0 && Earning(ls[k - 1]) && 0 < ls[k].amount <= -ls[k - 1].amount
  }

  lemma EarnedIsBounded(b: Books, d: Transaction, c: Transaction)
    requires FairPercents(b) && Earned(b, d, c)
    ensures c.amount <= -d.amount
  {
    var x, pct := -d.amount, PercentOf(b, d.admin);
    assert FloorOf(c.amount, x * pct, 100);
    hide FloorOf;
    ShareIsBounded(c.amount, x, pct);
  }

  lemma ShareIsBounded(share: int, x: int, pct: int)
    requires x > 0 && pct <= 100 && FloorOf(share, x * pct, 100)
    ensures share <= x
  {
    assert x * (100 - pct) >= 0;
  }

  lemma SharedIsBacked(b: Books, ls: seq<Transaction>)
    requires FairPercents(b) && Shared(b, ls)
    ensures Backed(ls)
  {
    hide FairPercents, Earned;
    forall k | 0 <= k < |ls| && ls[k].kind == CommissionCredit
      ensures k > 0 && Earning(ls[k - 1]) && 0 < ls[k].amount <= -ls[k - 1].amount
    {
      assert LineShared(b, ls, k);
      EarnedIsBounded(b, ls[k - 1], ls[k]);
      EarnedMeans(b, ls[k - 1], ls[k]);
    }
  }

  lemma EarnedMeans(b: Books, d: Transaction, c: Transaction)
    requires Earned(b, d, c)
    ensures Earning(d) && c.amount > 0
  {
  }

  lemma {:induction false} BackedSums(ls: seq<Transaction>)
    requires Backed(ls)
    ensures CommissionsPaid(ls) <= DebitsShared(ls)
    ensures ls != [] && Earning(ls[|ls| - 1]) ==> CommissionsPaid(ls) <= DebitsShared(ls) + ls[|ls| - 1].amount
    decreases |ls|
  {
    if ls != [] {
      var n := |ls| - 1;
      assert Backed(ls[..n]);
      BackedSums(ls[..n]);
      if ls[n].kind == CommissionCredit { assert ls[..n][n - 1] == ls[n - 1]; }
    }
  }

  lemma {:induction false} SumsAdd(xs: seq<Transaction>, ys: seq<Transaction>)
    ensures CommissionsPaid(xs + ys) == CommissionsPaid(xs) + CommissionsPaid(ys)
    ensures DebitsShared(xs + ys) == DebitsShared(xs) + DebitsShared(ys)
    decreases |ys|
  {
    if ys == [] {
      assert xs + ys == xs;
    } else {
      var n := |ys| - 1;
      assert (xs + ys)[..|xs + ys| - 1] == xs + ys[..n];
      SumsAdd(xs, ys[..n]);
    }
  }

  /** How far the commissions between two ledgers stay below the debits that earned them. */
  ghost predicate PaysNoMore(b: Books, c: Books) {
    CommissionsPaid(c.ledger) - CommissionsPaid(b.ledger) <= DebitsShared(c.ledger) - DebitsShared(b.ledger)
  }

  lemma StepPaysNoMore(p: Panel, op: Op)
    requires FairPercents(p.books)
    ensures PaysNoMore(p.books, Step(p, op).books)
  {
    var b, c := p.books, Step(p, op).books;
    if !ChangesRow(op) {
      hide Step, FairPercents, Shared;
      StepIsPosted(p, op);
      var ls := c.ledger[|b.ledger|..];
      SharedIsBacked(b, ls);
      BackedSums(ls);
      SumsAdd(b.ledger, ls);
      assert c.ledger == b.ledger + ls;
    }
  }

  /** Over every run in which no percentage exceeds a hundred, the commissions credited are at most
      the debits that earned them. */
  lemma {:induction false} CommissionsNeverExceedDebits(p: Panel, ops: seq<Op>)
    requires FairPercentsThroughout(p, ops)
    ensures PaysNoMore(p.books, Exec(p, ops).books)
    decreases |ops|
  {
    if ops != [] {
      hide Step, FairPercents;
      StepPaysNoMore(p, ops[0]);
      CommissionsNeverExceedDebits(Step(p, ops[0]), ops[1..]);
    }
  }

  // ------------------------------------------------------------------ the traffic cap

  /** What one pass makes of a user, in the fields of the rows: the reseller has used its cap up or
      cannot pay what it owes, and then its active users are disabled and marked; or not, and then
      its marked users are released. */
  lemma PassDecidesByTheRow(p: Panel, u: UserId, a: AdminId, on: bool, rs: map<AdminId, Ratio>)
    requires u in p.users && p.users[u].admin == Some(a)
    ensures var q, owed := Step(p, Enforce(on, rs)), Owes(p.books, a, RatioOf(rs, a));
            u in q.users &&
            PassedOver(p.users[u], q.users[u],
                       a in p.books.admins &&
                       (|| (on && 0 < owed && Balance(p.books, a) < owed)
                        || (!p.books.admins[a].isSudo && p.books.admins[a].trafficCap.Some? &&
                            p.books.admins[a].trafficCap.value <= p.books.admins[a].usersUsage)))
  {
    hide Owes, Swept;
  }

  /** Traffic that brings a reseller to its cap suspends its active users at the next pass. */
  lemma ReachingTheCapSuspends(p: Panel, a: AdminId, n: nat, u: UserId, on: bool, rs: map<AdminId, Ratio>)
    requires a in p.books.admins && !p.books.admins[a].isSudo && p.books.admins[a].trafficCap.Some?
    requires p.books.admins[a].trafficCap.value <= p.books.admins[a].usersUsage + n
    requires u in p.users && p.users[u].admin == Some(a) && p.users[u].status == Active
    ensures var q := Step(Step(p, RecordTraffic(a, n)), Enforce(on, rs));
            u in q.users && q.users[u] == p.users[u].(status := Disabled, capped := true)
  {
    hide Owes, Swept;
    PassDecidesByTheRow(Step(p, RecordTraffic(a, n)), u, a, on, rs);
  }

  /** Raising the cap above the usage, or clearing it, releases the marked users of a reseller that
      can pay at the next pass. */
  lemma RaisingTheCapReleases(p: Panel, a: AdminId, cap: Option<int>, u: UserId, on: bool, rs: map<AdminId, Ratio>)
    requires a in p.books.admins && (cap.Some? ==> p.books.admins[a].usersUsage < cap.value)
    requires on ==> Owes(p.books, a, RatioOf(rs, a)) <= Balance(p.books, a) || Owes(p.books, a, RatioOf(rs, a)) <= 0
    requires u in p.users && p.users[u].admin == Some(a) && p.users[u].capped
    ensures var q := Step(Step(p, EditReseller(a, Some(cap), None)), Enforce(on, rs));
            && u in q.users && !q.users[u].capped
            && q.users[u].status == match p.users[u].dataLimit
                                    case None => Active
                                    case Some(n) => if 0 < n <= p.users[u].used then Limited else Active
  {
    hide Swept, ComputeCharge, ApplyPrepaidCover, OwnershipSplit;
    var q := Step(p, EditReseller(a, Some(cap), None));
    assert Owes(q.books, a, RatioOf(rs, a)) == Owes(p.books, a, RatioOf(rs, a));
    hide Owes;
    PassDecidesByTheRow(q, u, a, on, rs);
  }

  /** The reseller has a cap and has used it up. */
  predicate UsedUp(b: Books, a: AdminId) {
    a in b.admins && !b.admins[a].isSudo && b.admins[a].trafficCap.Some? &&
    b.admins[a].trafficCap.value <= b.admins[a].usersUsage
  }

  predicate TouchesCap(op: Op, a: AdminId) { (op.ResetUsage? || (op.EditReseller? && op.cap.Some?)) && op.admin == a }

  lemma StepKeepsUsedUp(p: Panel, op: Op, a: AdminId)
    requires UsedUp(p.books, a) && !TouchesCap(op, a)
    ensures UsedUp(Step(p, op).books, a)
  {
    if !ChangesRow(op) {
      hide Step, Shared;
      StepIsPosted(p, op);
      assert SameTerms(p.books.admins[a], Step(p, op).books.admins[a]);
    }
  }

  /** Once the cap is used up, and until the counter is reset or the cap edited, every pass leaves
      none of the reseller's users active, whatever happens in between. */
  lemma {:induction false} UsedUpCapHolds(p: Panel, ops: seq<Op>, a: AdminId, u: UserId, on: bool, rs: map<AdminId, Ratio>)
    requires UsedUp(p.books, a) && forall k :: 0 <= k < |ops| ==> !TouchesCap(ops[k], a)
    ensures var q := Step(Exec(p, ops), Enforce(on, rs));
            u in q.users && q.users[u].admin == Some(a) ==> q.users[u].status != Active
    decreases |ops|
  {
    if ops == [] {
      hide Owes, Swept;
      if u in p.users && p.users[u].admin == Some(a) { PassDecidesByTheRow(p, u, a, on, rs); }
    } else {
      hide Step, UsedUp;
      StepKeepsUsedUp(p, ops[0], a);
      assert forall k :: 0 <= k < |ops[1..]| ==> ops[1..][k] == ops[k + 1];
      UsedUpCapHolds(Step(p, ops[0]), ops[1..], a, u, on, rs);
    }
  }
}
