/** Payment intents: wallet top-ups and portal purchases, from creation to one of four final
    states, and the ledger credit a completed top-up leaves behind. */
module Payments {
  import opened Base
  import opened Tables
  import opened Ledger
  import opened UsageBilling
  import opened Quota

  const RESELLER_TOPUP_MIN_AMOUNT: int := 1_000_000

  predicate Open(s: IntentStatus) { s == Pending || s == AwaitingReview }

  predicate Final(s: IntentStatus) { !Open(s) }

  predicate IsPortal(i: Intent) { i.kind == PortalRenew || i.kind == PortalPurchase }

  datatype Panel = Panel(books: Books, users: map<UserId, User>, intents: seq<Intent>)

  function WithStatus(p: Panel, id: nat, s: IntentStatus): Panel
    requires id < |p.intents|
  {
    p.(intents := p.intents[id := p.intents[id].(status := s)])
  }

  // ------------------------------------------------------------------ creation and review

  /** A top-up below the floor or above the ceiling is refused; a provider that fails to open the
      payment leaves a failed intent. */
  function AfterCreateTopup(p: Panel, a: AdminId, amount: int, provider: Provider, maxAmount: int, started: bool): Panel {
    if amount < RESELLER_TOPUP_MIN_AMOUNT || amount > maxAmount then p
    else p.(intents := p.intents +
              [Intent(TopupIntent, a, amount, provider, if started then Pending else Failed, 0, 0, None)])
  }

  function AfterCreatePortal(
      p: Panel, purchase: bool, a: AdminId, price: int, provider: Provider, expiresAt: int, started: bool,
      target: UserId, plan: Option<int>): Panel
  {
    if price <= 0 then p
    else p.(intents := p.intents +
              [Intent(if purchase then PortalPurchase else PortalRenew, a, price, provider,
                      if started then Pending else Failed, expiresAt, target, plan)])
  }

  function AfterSubmitCard(p: Panel, id: nat): Panel {
    if id < |p.intents| && p.intents[id].provider == Card && Open(p.intents[id].status)
    then WithStatus(p, id, AwaitingReview) else p
  }

  function AfterReject(p: Panel, id: nat, mayReview: bool): Panel {
    if id < |p.intents| && Open(p.intents[id].status) && mayReview then WithStatus(p, id, Rejected) else p
  }

  predicate Overdue(i: Intent, now: int) { IsPortal(i) && i.status == Pending && now >= i.expiresAt }

  /** The sweep looks at the first `limit` pending portal intents and expires the overdue ones. */
  function ExpireOverdue(intents: seq<Intent>, now: int, limit: nat): seq<Intent> {
    if intents == [] || limit == 0 then intents
    else
      var i := intents[0];
      var looked := IsPortal(i) && i.status == Pending;
      [if Overdue(i, now) then i.(status := ExpiredIntent) else i] +
      ExpireOverdue(intents[1..], now, if looked then limit - 1 else limit)
  }

  // ------------------------------------------------------------------ completion

  /** How far the follow-up of a top-up gets before an exception stops it. */
  datatype FollowUp =
    | Nothing
    | Settle(ratio: Ratio)
    | SettleAndEnforce(ratio: Ratio, billingOn: bool, ratios: map<AdminId, Ratio>)

  /** What the wholesale catalogue says about a plan: no tariff applies, one should but does not,
      or a price. */
  datatype Wholesale = NoTariff | Unmatched | Tariff(price: int)

  /** What happens outside the model while a payment completes: verification, how far a top-up's
      follow-up gets, whether plan and account data are found, the catalogue, and the id of a new
      account. */
  datatype Effects = Effects(verified: bool, followUp: FollowUp, found: bool, wholesale: Wholesale, newUser: UserId)

  function BlockedNow(b: Books, billingOn: bool, rs: map<AdminId, Ratio>): set<AdminId> {
    OverCap(b) + if billingOn then UnpaidSet(b, rs) else {}
  }

  function AfterEnforce(p: Panel, billingOn: bool, rs: map<AdminId, Ratio>): Panel {
    p.(books := if billingOn then Swept(p.books, rs) else p.books,
       users := Enforced(p.users, BlockedNow(p.books, billingOn, rs)))
  }

  function TopupLine(i: Intent, id: nat): Transaction { Transaction(i.admin, i.amount, Topup, PaymentRef(id)) }

  /** The books after a top-up's credit and, when the follow-up gets there, its bill. */
  function ToppedUp(b: Books, i: Intent, id: nat, f: FollowUp): Books {
    var c := AfterTransaction(b, TopupLine(i, id), false);
    if !f.Nothing? && i.admin in c.admins then AfterBill(c, i.admin, f.ratio) else c
  }

  function AfterTopup(p: Panel, id: nat, f: FollowUp): Panel
    requires id < |p.intents|
  {
    var q := p.(books := ToppedUp(p.books, p.intents[id], id, f));
    if f.SettleAndEnforce? then AfterEnforce(q, f.billingOn, f.ratios) else q
  }

  /** The wholesale price cannot be paid: the plan was found but its tariff was not, or the wallet is
      too low. */
  predicate WholesaleFails(b: Books, a: Option<AdminId>, w: Wholesale) {
    && a.Some? && a.value != 0 && a.value in b.admins && !b.admins[a.value].isSudo
    && (w.Unmatched? || (w.Tariff? && w.price > 0 && Balance(b, a.value) < w.price))
  }

  /** What a sale does to the books: nothing, a look at the wallet, which creates a missing one, or
      a posting that was checked against the balance. */
  datatype Move = Stay | Look(admin: AdminId) | Post(tx: Transaction)

  function Moved(b: Books, m: Move): Books {
    match m
    case Stay => b
    case Look(a) => WithWallet(b, a)
    case Post(tx) => AfterTransaction(b, tx, false)
  }

  /** The wholesale debit of a sold plan. */
  function WholesaleMove(b: Books, a: Option<AdminId>, w: Wholesale): Move {
    if a == None || a.value == 0 || a.value !in b.admins || b.admins[a.value].isSudo || !w.Tariff? || w.price <= 0 then Stay
    else if Balance(b, a.value) < w.price then Look(a.value)
    else Post(Transaction(a.value, -w.price, PlanSale, OtherRef))
  }

  function AfterWholesale(b: Books, a: Option<AdminId>, w: Wholesale): Books { Moved(b, WholesaleMove(b, a, w)) }

  // ------------------------------------------------------------------ plans sold without an intent

  /** The reseller that pays for a sale to its user. */
  predicate HasPayer(a: Option<AdminId>) { a.Some? && a.value != 0 }

  /** An operator sells a plan: the retail price is checked and debited, then the plan is applied. */
  function SellMove(b: Books, a: AdminId, price: int): Move {
    if price <= 0 then Stay
    else if Balance(b, a) < price then Look(a)
    else Post(Transaction(a, -price, PlanSale, OtherRef))
  }

  function AfterSellPlan(p: Panel, u: UserId, price: int, plan: Option<int>): Panel {
    if u !in p.users || !HasPayer(p.users[u].admin) then p
    else
      var a := p.users[u].admin.value;
      p.(books := Moved(p.books, SellMove(p.books, a, price)),
         users := if SellMove(p.books, a, price).Look? then p.users
                  else p.users[u := Renewed(p.users[u], plan)])
  }

  /** A customer renews in the portal without a payment: the wholesale charge is checked first, a
      retail price is charged only where no tariff applies, and payment methods that exist must be
      used instead. */
  predicate PortalRefuses(b: Books, payer: Option<AdminId>, price: int, w: Wholesale, methods: bool) {
    || WholesaleFails(b, payer, w)
    || (price > 0 && methods)
    || (price > 0 && !w.Tariff? && (!HasPayer(payer) || Balance(b, payer.value) < price))
  }

  function PortalMove(b: Books, payer: Option<AdminId>, price: int, w: Wholesale, methods: bool): Move {
    if PortalRefuses(b, payer, price, w, methods) then
      if WholesaleMove(b, payer, w) != Stay ||
         (!WholesaleFails(b, payer, w) && price > 0 && !w.Tariff? && !methods && HasPayer(payer))
      then Look(payer.value) else Stay
    else if price > 0 && !w.Tariff? then Post(Transaction(payer.value, -price, PortalSale, OtherRef))
    else WholesaleMove(b, payer, w)
  }

  function AfterPortalRenewal(p: Panel, login: UserId, target: UserId, price: int, plan: Option<int>,
                              w: Wholesale, methods: bool): Panel {
    if login !in p.users || target !in p.users then p
    else
      var payer := p.users[login].admin;
      p.(books := Moved(p.books, PortalMove(p.books, payer, price, w, methods)),
         users := if PortalRefuses(p.books, payer, price, w, methods) then p.users
                  else p.users[target := Renewed(p.users[target], plan)])
  }

  /** The target account exists and its plan is found. */
  predicate Reaches(p: Panel, id: nat, e: Effects)
    requires id < |p.intents|
  {
    p.intents[id].target in p.users && e.found && (p.intents[id].kind == PortalPurchase ==> e.newUser !in p.users)
  }

  /** The account a completed purchase creates. */
  function NewAccount(owner: User, plan: Option<int>): User {
    User(Active, false, owner.admin, if Unlimited(plan) then None else plan, 0, 0)
  }

  /** The users after the plan of a portal payment is applied, which happens before the wholesale
      charge and stays when that fails. */
  function UsersAfterPortal(p: Panel, id: nat, e: Effects): map<UserId, User>
    requires id < |p.intents| && Reaches(p, id, e)
  {
    var i := p.intents[id];
    if i.kind == PortalPurchase then p.users[e.newUser := NewAccount(p.users[i.target], i.plan)]
    else p.users[i.target := Renewed(p.users[i.target], i.plan)]
  }

  function AfterPortal(p: Panel, id: nat, e: Effects): Panel
    requires id < |p.intents|
  {
    if !Reaches(p, id, e) then p
    else
      var i, payer := p.intents[id], p.users[p.intents[id].target].admin;
      var q := p.(users := UsersAfterPortal(p, id, e), books := AfterWholesale(p.books, payer, e.wholesale));
      if WholesaleFails(p.books, payer, e.wholesale) then q
      else q.(intents := p.intents[id := i.(status := Completed,
                                            target := if i.kind == PortalPurchase then e.newUser else i.target)])
  }

  function AfterComplete(p: Panel, id: nat, e: Effects): Panel {
    if id >= |p.intents| || !Open(p.intents[id].status) || !e.verified then p
    else if p.intents[id].kind == TopupIntent then WithStatus(AfterTopup(p, id, e.followUp), id, Completed)
    else AfterPortal(p, id, e)
  }

  function AfterApprove(p: Panel, id: nat, mayReview: bool, e: Effects): Panel {
    if id < |p.intents| && Open(p.intents[id].status) && p.intents[id].provider == Card && mayReview
    then AfterComplete(p, id, e) else p
  }

  // ------------------------------------------------------------------ the ledger lines of payments

  /** A line that no payment of an intent wrote. */
  predicate Ordinary(tx: Transaction) { tx.kind != Topup && !tx.ref.PaymentRef? }

  /** `m` is `l` followed by ordinary lines only. */
  ghost predicate Grows(l: seq<Transaction>, m: seq<Transaction>) {
    |l| <= |m| && m[..|l|] == l && forall k :: |l| <= k < |m| ==> Ordinary(m[k])
  }

  lemma GrowsTransitive(l: seq<Transaction>, m: seq<Transaction>, n: seq<Transaction>)
    requires Grows(l, m) && Grows(m, n)
    ensures Grows(l, n)
  {
    assert n[..|l|] == m[..|l|];
    forall k | |l| <= k < |n| ensures Ordinary(n[k]) {
      if k < |m| { assert n[k] == n[..|m|][k]; }
    }
  }

  lemma TransactionGrows(b: Books, tx: Transaction, skip: bool)
    requires Ordinary(tx)
    ensures Grows(b.ledger, AfterTransaction(b, tx, skip).ledger)
    decreases if skip then 0 else 2
  {
    var c := Entered(WithWallet(b, tx.admin), tx);
    assert Grows(b.ledger, c.ledger);
    if !skip && tx.amount < 0 && tx.kind != CommissionCredit && tx.kind != InvoicePayment {
      CommissionGrows(c, tx.admin, tx.amount, tx.ref);
      GrowsTransitive(b.ledger, c.ledger, AfterCommission(c, tx.admin, tx.amount, tx.ref).ledger);
    }
  }

  lemma CommissionGrows(b: Books, a: AdminId, debit: int, ref: Reference)
    requires !ref.PaymentRef?
    ensures Grows(b.ledger, AfterCommission(b, a, debit, ref).ledger)
    decreases 1
  {
    var due := CommissionFor(b, a, debit);
    if due.Some? { TransactionGrows(b, Transaction(due.value.0, due.value.1, CommissionCredit, ref), true); }
  }

  lemma BillGrows(b: Books, a: AdminId, r: Ratio)
    requires a in b.admins
    ensures Grows(b.ledger, AfterBill(b, a, r).ledger)
  {
    hide QuoteFor;
    var m := b.admins[a];
    var q := QuoteFor(m, RateFor(b, m), r);
    BilledGrows(b, a, q);
  }

  lemma BilledGrows(b: Books, a: AdminId, q: Quote)
    requires a in b.admins
    ensures Grows(b.ledger, Billed(b, a, q).ledger)
  {
    var m := b.admins[a];
    if Outcome(b, a, q) == Charged {
      var settled := WithAdmin(b, a, Settled(m, q.covered)).(settlements := b.settlements + [SettlementOf(a, m, q)]);
      TransactionGrows(WithWallet(settled, a), Transaction(a, -q.cost, UsageCharge, OtherRef), false);
    }
  }

  lemma PurchaseGrows(b: Books, cat: Catalog, a: AdminId, id: nat)
    ensures Grows(b.ledger, AfterPurchase(b, cat, a, id).ledger)
  {
    var r := PackageResult(b, cat, a, id);
    if r.Granted? && r.price > 0 {
      var paid := Entered(WithWallet(b, a), Transaction(a, -r.price, PackageSale, OtherRef));
      var t := WithTraffic(paid, a, r.bytes, r.price);
      assert Grows(b.ledger, t.ledger);
      CommissionGrows(t, a, -r.price, OtherRef);
      GrowsTransitive(b.ledger, t.ledger, AfterCommission(t, a, -r.price, OtherRef).ledger);
    }
  }

  lemma PayInvoiceGrows(b: Books, id: nat)
    ensures Grows(b.ledger, AfterPayInvoice(b, id).ledger)
  {
    if InvoiceResult(b, id) == NowPaid {
      var i := b.invoices[id];
      var c := WithWallet(b, i.admin).(invoices := b.invoices[id := i.(status := InvoicePaid)]);
      TransactionGrows(c, Transaction(i.admin, -i.amount, InvoicePayment, InvoiceRef(id)), false);
    }
  }

  /** The ledger lines that carry an intent's reference. */
  function LinesOf(l: seq<Transaction>, id: nat): seq<Transaction> {
    if l == [] then []
    else LinesOf(l[..|l| - 1], id) + (if l[|l| - 1].ref == PaymentRef(id) then [l[|l| - 1]] else [])
  }

  function TopupCredits(l: seq<Transaction>): int {
    if l == [] then 0 else TopupCredits(l[..|l| - 1]) + (if l[|l| - 1].kind == Topup then l[|l| - 1].amount else 0)
  }

  lemma {:induction false} OrdinaryLinesDoNotCount(l: seq<Transaction>, m: seq<Transaction>, id: nat)
    requires Grows(l, m)
    ensures LinesOf(m, id) == LinesOf(l, id) && TopupCredits(m) == TopupCredits(l)
    decreases |m|
  {
    if |m| == |l| {
      assert m == l;
    } else {
      var n := m[..|m| - 1];
      assert n[..|l|] == m[..|l|];
      OrdinaryLinesDoNotCount(l, n, id);
      assert Ordinary(m[|m| - 1]);
    }
  }

  predicate Paid(i: Intent) { i.kind == TopupIntent && i.status == Completed }

  function PaidAmount(intents: seq<Intent>): int {
    if intents == [] then 0
    else PaidAmount(intents[..|intents| - 1]) + (if Paid(intents[|intents| - 1]) then intents[|intents| - 1].amount else 0)
  }

  /** A top-up intent has exactly one ledger credit, of its amount, when it is completed, and
      none otherwise; no other intent has any. */
  ghost predicate IntentMatches(p: Panel, id: nat) {
    LinesOf(p.books.ledger, id) ==
      if id < |p.intents| && Paid(p.intents[id]) then [TopupLine(p.intents[id], id)] else []
  }

  ghost predicate PaymentsMatch(p: Panel) {
    && (forall id: nat :: IntentMatches(p, id))
    && TopupCredits(p.books.ledger) == PaidAmount(p.intents)
    && (forall k :: 0 <= k < |p.intents| ==> p.intents[k].amount > 0)
  }

  /** Final intents stay as they are, and no intent is lost. */
  ghost predicate Preserved(before: seq<Intent>, after: seq<Intent>) {
    |before| <= |after| &&
    forall k :: 0 <= k < |before| && Final(before[k].status) ==> after[k] == before[k]
  }

  predicate SameMoneyIntent(i: Intent, j: Intent) { i.kind == j.kind && i.admin == j.admin && i.amount == j.amount }

  /** What intents are for and the set of paid top-ups are unchanged. */
  ghost predicate SamePaid(before: seq<Intent>, after: seq<Intent>) {
    && |before| <= |after|
    && (forall k :: 0 <= k < |before| ==>
          SameMoneyIntent(before[k], after[k]) && (Paid(after[k]) <==> Paid(before[k])))
    && (forall k :: |before| <= k < |after| ==> !Paid(after[k]) && after[k].amount > 0)
  }

  lemma {:induction false} SamePaidSameAmount(before: seq<Intent>, after: seq<Intent>)
    requires SamePaid(before, after)
    ensures PaidAmount(after) == PaidAmount(before)
    decreases |after|
  {
    if |after| > |before| {
      SamePaidSameAmount(before, after[..|after| - 1]);
    } else if after != [] {
      var n := |after| - 1;
      SamePaidSameAmount(before[..n], after[..n]);
    }
  }

  /** Operations that write only ordinary lines and pay no top-up keep the match. */
  lemma OrdinaryStepKeepsMatch(p: Panel, q: Panel)
    requires PaymentsMatch(p) && Grows(p.books.ledger, q.books.ledger) && SamePaid(p.intents, q.intents)
    ensures PaymentsMatch(q)
  {
    SamePaidSameAmount(p.intents, q.intents);
    OrdinaryLinesDoNotCount(p.books.ledger, q.books.ledger, 0);
    forall id: nat ensures IntentMatches(q, id) {
      assert IntentMatches(p, id);
      OrdinaryLinesDoNotCount(p.books.ledger, q.books.ledger, id);
    }
    forall k | 0 <= k < |q.intents| ensures q.intents[k].amount > 0 {
      if k < |p.intents| { assert SameMoneyIntent(p.intents[k], q.intents[k]); }
    }
  }

  lemma {:induction false} PaidAmountUpdate(intents: seq<Intent>, id: nat, i: Intent)
    requires id < |intents|
    ensures PaidAmount(intents[id := i]) == PaidAmount(intents)
            - (if Paid(intents[id]) then intents[id].amount else 0) + (if Paid(i) then i.amount else 0)
    decreases |intents|
  {
    var n := |intents| - 1;
    if id == n {
      assert intents[id := i][..n] == intents[..n];
    } else {
      assert intents[id := i][..n] == intents[..n][id := i];
      PaidAmountUpdate(intents[..n], id, i);
    }
  }

  /** The credit itself: one line, with the intent's amount and reference. */
  lemma CreditIsOneLine(p: Panel, id: nat)
    requires id < |p.intents| && p.intents[id].amount > 0
    ensures AfterTransaction(p.books, TopupLine(p.intents[id], id), false).ledger
         == p.books.ledger + [TopupLine(p.intents[id], id)]
  {
  }

  lemma CreditKeepsMatch(p: Panel, id: nat, q: Panel)
    requires PaymentsMatch(p) && id < |p.intents|
    requires p.intents[id].kind == TopupIntent && Open(p.intents[id].status)
    requires q.books.ledger == p.books.ledger + [TopupLine(p.intents[id], id)]
    requires q.intents == p.intents[id := p.intents[id].(status := Completed)]
    ensures PaymentsMatch(q)
  {
    var line := TopupLine(p.intents[id], id);
    assert (p.books.ledger + [line])[..|p.books.ledger|] == p.books.ledger;
    PaidAmountUpdate(p.intents, id, q.intents[id]);
    forall k: nat ensures IntentMatches(q, k) { assert IntentMatches(p, k); }
  }

  lemma FollowUpGrows(p: Panel, id: nat, f: FollowUp)
    requires id < |p.intents|
    ensures var b := AfterTransaction(p.books, TopupLine(p.intents[id], id), false);
            var q := AfterTopup(p, id, f);
            q.intents == p.intents && Grows(b.ledger, q.books.ledger)
  {
    hide AfterBill, Swept, BlockedNow, Enforced, AfterTransaction;
    var i := p.intents[id];
    var b := AfterTransaction(p.books, TopupLine(i, id), false);
    if !f.Nothing? && i.admin in b.admins { BillGrows(b, i.admin, f.ratio); }
    if f.SettleAndEnforce? { SweptLedger(ToppedUp(p.books, i, id, f), f.ratios); }
  }

  lemma SweptLedger(b: Books, rs: map<AdminId, Ratio>)
    ensures Swept(b, rs) == b.(admins := Swept(b, rs).admins, wallets := Swept(b, rs).wallets)
    ensures OverCap(Swept(b, rs)) == OverCap(b)
  {
    hide Owes, Owing;
  }

  /** A top-up is opened exactly for an amount from the floor of a million up to the ceiling, and it
      is then pending, or failed when its provider cannot start it. */
  lemma TopupIsOpenedIff(p: Panel, a: AdminId, amount: int, provider: Provider, maxAmount: int, started: bool)
    ensures var q := AfterCreateTopup(p, a, amount, provider, maxAmount, started);
            && q == p.(intents := q.intents)
            && (q.intents != p.intents <==> 1_000_000 <= amount <= maxAmount)
            && (q.intents != p.intents ==>
                  && |q.intents| == |p.intents| + 1 && q.intents[..|p.intents|] == p.intents
                  && var i := q.intents[|p.intents|];
                     && i.kind == TopupIntent && i.admin == a && i.amount == amount && i.provider == provider
                     && (i.status == Pending <==> started) && (i.status == Failed <==> !started))
  {
    var q := AfterCreateTopup(p, a, amount, provider, maxAmount, started);
    if q.intents != p.intents { assert q.intents[..|p.intents|] == p.intents; }
    if 1_000_000 <= amount <= maxAmount { assert |q.intents| == |p.intents| + 1; }
  }

  /** A portal payment is opened exactly for a plan with a price; it keeps what was bought for whom,
      and is pending, or failed when its provider cannot start it. */
  lemma PortalPaymentIsOpenedIff(
      p: Panel, purchase: bool, a: AdminId, price: int, provider: Provider, expiresAt: int, started: bool,
      target: UserId, plan: Option<int>)
    ensures var q := AfterCreatePortal(p, purchase, a, price, provider, expiresAt, started, target, plan);
            && q == p.(intents := q.intents)
            && (price <= 0 ==> q == p)
            && (price > 0 ==>
                  && |q.intents| == |p.intents| + 1 && q.intents[..|p.intents|] == p.intents
                  && var i := q.intents[|p.intents|];
                     && i.kind != TopupIntent && (i.kind == PortalPurchase <==> purchase)
                     && i.admin == a && i.amount == price && i.provider == provider && i.expiresAt == expiresAt
                     && i.target == target && i.plan == plan && i.status == if started then Pending else Failed)
  {
    var q := AfterCreatePortal(p, purchase, a, price, provider, expiresAt, started, target, plan);
    if price > 0 { assert q.intents[..|p.intents|] == p.intents; }
  }

  /** A sale in the office: without a payer nothing happens; a price the wallet holds is debited, and
      one it does not hold stops the sale; the account starts its new period exactly when it does not. */
  lemma SaleMeans(p: Panel, u: UserId, price: int, plan: Option<int>)
    requires u in p.users && p.users[u].admin.Some? && p.users[u].admin.value != 0
    ensures var q, a := AfterSellPlan(p, u, price, plan), p.users[u].admin.value;
            && (price <= Balance(p.books, a) || price <= 0 ==> q.users == p.users[u := Renewed(p.users[u], plan)])
            && (Balance(p.books, a) < price && price > 0 ==> q.users == p.users)
            && (0 < price <= Balance(p.books, a) ==>
                  |p.books.ledger| < |q.books.ledger| &&
                  q.books.ledger[|p.books.ledger|] == Transaction(a, -price, PlanSale, OtherRef))
            && (price <= 0 || Balance(p.books, a) < price ==> q.books.ledger == p.books.ledger)
  {
    hide Renewed, AfterTransaction;
    var a := p.users[u].admin.value;
    if 0 < price <= Balance(p.books, a) {
      TransactionWritesItsLine(p.books, Transaction(a, -price, PlanSale, OtherRef), false);
    }
  }

  /** A renewal in the portal without a payment: refused when payment methods exist and the plan has
      a price, when a tariff is missing, or when the wallet holds neither the tariff nor, where none
      applies, the price; otherwise it debits the tariff or else the price, and renews. */
  lemma PortalRenewalMeans(p: Panel, u: UserId, price: int, plan: Option<int>, w: Wholesale, methods: bool)
    requires u in p.users && p.users[u].admin.Some? && p.users[u].admin.value != 0
    requires p.users[u].admin.value in p.books.admins && !p.books.admins[p.users[u].admin.value].isSudo
    ensures var q, a := AfterPortalRenewal(p, u, u, price, plan, w, methods), p.users[u].admin.value;
            var cost := match w case NoTariff => price case Unmatched => 0 case Tariff(n) => n;
            var refused := (price > 0 && methods) || w.Unmatched? || (cost > 0 && Balance(p.books, a) < cost);
            && q.users == (if refused then p.users else p.users[u := Renewed(p.users[u], plan)])
            && (refused || cost <= 0 ==> q.books.ledger == p.books.ledger)
            && (!refused && cost > 0 ==>
                  && |p.books.ledger| < |q.books.ledger| && q.books.ledger[|p.books.ledger|].admin == a
                  && q.books.ledger[|p.books.ledger|].amount == -cost)
  {
    hide Renewed, AfterTransaction;
    var a, m := p.users[u].admin.value, PortalMove(p.books, p.users[u].admin, price, w, methods);
    if m.Post? { TransactionWritesItsLine(p.books, m.tx, false); }
  }

  /** A completed purchase in the portal opens one active account of the payer's reseller, with the
      plan's volume and nothing used; the payment then names it, and everyone else's account stays. */
  lemma PurchaseOpensAnAccount(p: Panel, id: nat, e: Effects)
    requires id < |p.intents| && p.intents[id].kind == PortalPurchase && Open(p.intents[id].status) && e.verified
    requires p.intents[id].target in p.users && e.found && e.newUser !in p.users
    ensures var q, plan := AfterComplete(p, id, e), p.intents[id].plan;
            && e.newUser in q.users && q.users - {e.newUser} == p.users
            && q.users[e.newUser] == User(Active, false, p.users[p.intents[id].target].admin,
                                          if plan.Some? && plan.value > 0 then plan else None, 0, 0)
            && (q.intents[id].status == Completed ==> q.intents[id].target == e.newUser)
  {
    hide AfterWholesale;
    var q := AfterComplete(p, id, e);
    assert q.users - {e.newUser} == p.users;
  }

  /** A review completes a payment only for one who may review, and only a card payment still open;
      a customer's receipt counts for the same payments. */
  lemma ReviewMeans(p: Panel, id: nat, mayReview: bool, e: Effects)
    requires id < |p.intents|
    ensures var i := p.intents[id];
            && (AfterApprove(p, id, mayReview, e) != p ==>
                  mayReview && i.provider == Card && (i.status == Pending || i.status == AwaitingReview))
            && (AfterComplete(p, id, e) != p ==> e.verified && (i.status == Pending || i.status == AwaitingReview))
            && (AfterSubmitCard(p, id) == if i.provider == Card && (i.status == Pending || i.status == AwaitingReview)
                                          then p.(intents := p.intents[id := i.(status := AwaitingReview)]) else p)
            && (AfterReject(p, id, mayReview) == if mayReview && (i.status == Pending || i.status == AwaitingReview)
                                                 then p.(intents := p.intents[id := i.(status := Rejected)]) else p)
  {
    hide AfterTopup, AfterPortal;
  }

  /** A move posts only the debit of a sale, and none that the wallet cannot pay. */
  ghost predicate Checked(b: Books, m: Move) {
    m.Post? ==>
      && Ordinary(m.tx) && m.tx.amount < 0 && (m.tx.kind == PlanSale || m.tx.kind == PortalSale)
      && Balance(b, m.tx.admin) + m.tx.amount >= 0
  }

  /** Every sale of a plan checks the wallet before it debits it. */
  lemma SalesAreChecked(b: Books, a: Option<AdminId>, price: int, w: Wholesale, methods: bool)
    ensures Checked(b, WholesaleMove(b, a, w)) && Checked(b, PortalMove(b, a, price, w, methods))
    ensures a.Some? ==> Checked(b, SellMove(b, a.value, price))
  {
  }

  lemma MoveGrows(b: Books, m: Move)
    requires Checked(b, m)
    ensures Grows(b.ledger, Moved(b, m).ledger)
  {
    hide AfterTransaction;
    if m.Post? { TransactionGrows(b, m.tx, false); }
  }

  lemma PortalKeepsMatch(p: Panel, id: nat, e: Effects)
    requires PaymentsMatch(p) && id < |p.intents| && Open(p.intents[id].status) && p.intents[id].kind != TopupIntent
    ensures PaymentsMatch(AfterPortal(p, id, e)) && Preserved(p.intents, AfterPortal(p, id, e).intents)
  {
    hide Moved, WholesaleMove, WholesaleFails, UsersAfterPortal;
    if Reaches(p, id, e) {
      var payer := p.users[p.intents[id].target].admin;
      SalesAreChecked(p.books, payer, 0, e.wholesale, false);
      MoveGrows(p.books, WholesaleMove(p.books, payer, e.wholesale));
      OrdinaryStepKeepsMatch(p, AfterPortal(p, id, e));
    }
  }

  lemma CompleteKeepsMatch(p: Panel, id: nat, e: Effects)
    requires PaymentsMatch(p)
    ensures PaymentsMatch(AfterComplete(p, id, e)) && Preserved(p.intents, AfterComplete(p, id, e).intents)
  {
    hide AfterTopup, AfterPortal, AfterTransaction;
    if id < |p.intents| && Open(p.intents[id].status) && e.verified {
      var i := p.intents[id];
      if i.kind == TopupIntent {
        CreditIsOneLine(p, id);
        FollowUpGrows(p, id, e.followUp);
        var b := AfterTransaction(p.books, TopupLine(i, id), false);
        var credited := Panel(b, p.users, p.intents[id := i.(status := Completed)]);
        CreditKeepsMatch(p, id, credited);
        OrdinaryStepKeepsMatch(credited, AfterComplete(p, id, e));
      } else {
        PortalKeepsMatch(p, id, e);
      }
    }
  }

  /** A renewal reaches the account before it is charged for: the account has the new period either
      way, and the intent is completed exactly when the wholesale charge goes through. */
  lemma RenewalComesBeforeItsCharge(p: Panel, id: nat, e: Effects)
    requires id < |p.intents| && p.intents[id].kind == PortalRenew && Open(p.intents[id].status) && e.verified
    requires Reaches(p, id, e)
    ensures var q, t := AfterComplete(p, id, e), p.intents[id].target;
            && q.users == p.users[t := Renewed(p.users[t], p.intents[id].plan)]
            && (q.intents[id].status == Completed <==> !WholesaleFails(p.books, p.users[t].admin, e.wholesale))
            && (WholesaleFails(p.books, p.users[t].admin, e.wholesale) ==>
                  q.intents == p.intents && q.books.ledger == p.books.ledger)
  {
    hide Renewed, AfterTransaction;
  }

  /** How many of the intents are portal payments still waiting for their payer. */
  function WaitingPortals(intents: seq<Intent>): nat {
    if intents == [] then 0
    else (if intents[0].kind != TopupIntent && intents[0].status == Pending then 1 else 0) + WaitingPortals(intents[1..])
  }

  /** The sweep expires exactly the portal payments whose time has come among the first `limit` that
      wait, and changes nothing else. */
  lemma {:induction false} ExpiresExactly(intents: seq<Intent>, now: int, limit: nat, k: nat)
    requires k < |intents|
    ensures var e, i := ExpireOverdue(intents, now, limit), intents[k];
            && |e| == |intents|
            && e[k] == if i.kind != TopupIntent && i.status == Pending && i.expiresAt <= now && WaitingPortals(intents[..k]) < limit
                       then i.(status := ExpiredIntent) else i
    decreases |intents|
  {
    if limit > 0 && |intents| > 1 {
      var left := if IsPortal(intents[0]) && intents[0].status == Pending then limit - 1 else limit;
      ExpiresExactly(intents[1..], now, left, if k > 0 then k - 1 else 0);
      if k > 0 { assert intents[..k][1..] == intents[1..][..k - 1]; }
    }
  }

  lemma {:induction false} ExpiryKeepsPaid(intents: seq<Intent>, now: int, limit: nat)
    ensures var e := ExpireOverdue(intents, now, limit);
            |e| == |intents| && Preserved(intents, e) &&
            (forall k :: 0 <= k < |e| ==> e[k] == if Overdue(intents[k], now) && e[k].status == ExpiredIntent
                                                  then intents[k].(status := ExpiredIntent) else intents[k])
  {
    if intents != [] && limit > 0 {
      var i := intents[0];
      var rest := ExpireOverdue(intents[1..], now, if IsPortal(i) && i.status == Pending then limit - 1 else limit);
      ExpiryKeepsPaid(intents[1..], now, if IsPortal(i) && i.status == Pending then limit - 1 else limit);
      var e := ExpireOverdue(intents, now, limit);
      assert e == [e[0]] + rest;
      forall k | 1 <= k < |e| ensures e[k] == rest[k - 1] && intents[k] == intents[1..][k - 1] {}
    }
  }

  // ------------------------------------------------------------------ the operations on a session

  function PanelOf(db: Session): Panel
    reads db
  {
    Panel(db.Contents(), db.users, db.intents)
  }

  method CreateTopupPayment(db: Session, a: AdminId, amount: int, provider: Provider, maxAmount: int, started: bool)
    returns (id: Option<nat>)
    modifies db`intents
    ensures PanelOf(db) == AfterCreateTopup(old(PanelOf(db)), a, amount, provider, maxAmount, started)
    ensures id.Some? ==> id.value < |db.intents| && db.intents[id.value].status == Pending
  {
    if amount < RESELLER_TOPUP_MIN_AMOUNT || amount > maxAmount { return None; }
    db.intents := db.intents + [Intent(TopupIntent, a, amount, provider, Pending, 0, 0, None)];
    var n := |db.intents| - 1;
    if !started {
      db.intents := db.intents[n := db.intents[n].(status := Failed)];
      return None;
    }
    return Some(n);
  }

  method SubmitCardPayment(db: Session, id: nat) returns (ok: bool)
    modifies db`intents
    ensures PanelOf(db) == AfterSubmitCard(old(PanelOf(db)), id)
    ensures ok <==> id < |db.intents| && old(db.intents)[id].provider == Card && Open(old(db.intents)[id].status)
  {
    if id >= |db.intents| || db.intents[id].provider != Card || !Open(db.intents[id].status) { return false; }
    db.intents := db.intents[id := db.intents[id].(status := AwaitingReview)];
    return true;
  }

  method RejectPayment(db: Session, id: nat, mayReview: bool)
    modifies db`intents
    ensures PanelOf(db) == AfterReject(old(PanelOf(db)), id, mayReview)
  {
    if id >= |db.intents| || !Open(db.intents[id].status) || !mayReview { return; }
    db.intents := db.intents[id := db.intents[id].(status := Rejected)];
  }

  lemma ExpireStep(intents: seq<Intent>, k: nat, now: int, limit: nat)
    requires k < |intents| && limit > 0
    ensures var i := intents[k];
            ExpireOverdue(intents[k..], now, limit)
              == [if Overdue(i, now) then i.(status := ExpiredIntent) else i] +
                 ExpireOverdue(intents[k + 1..], now, if IsPortal(i) && i.status == Pending then limit - 1 else limit)
  {
    assert intents[k..][1..] == intents[k + 1..];
  }

  method ExpireStalePortalPayments(db: Session, now: int, limit: int) returns (n: nat)
    modifies db`intents
    ensures db.intents == ExpireOverdue(old(db.intents), now, Max(1, Min(limit, 1000)))
  {
    var rows, done: seq<Intent>, left: nat := db.intents, [], Max(1, Min(limit, 1000));
    n := 0;
    var k := 0;
    assert rows[0..] == rows;
    while k < |rows| && left > 0
      invariant k <= |rows|
      invariant done + ExpireOverdue(rows[k..], now, left) == ExpireOverdue(rows, now, Max(1, Min(limit, 1000)))
      decreases |rows| - k
    {
      hide ExpireOverdue;
      ExpireStep(rows, k, now, left);
      var i := rows[k];
      if IsPortal(i) && i.status == Pending {
        left := left - 1;
        if now >= i.expiresAt {
          i := i.(status := ExpiredIntent);
          n := n + 1;
        }
      }
      Regroup(done, i, ExpireOverdue(rows[k + 1..], now, left));
      done := done + [i];
      k := k + 1;
    }
    db.intents := done + rows[k..];
  }

  lemma Regroup(done: seq<Intent>, i: Intent, rest: seq<Intent>)
    ensures done + ([i] + rest) == (done + [i]) + rest
  {
  }

  method ApplyTopup(db: Session, id: nat, f: FollowUp)
    requires id < |db.intents|
    modifies db
    ensures PanelOf(db) == AfterTopup(old(PanelOf(db)), id, f)
  {
    hide AfterBill, BillResult, UnpaidSet, Swept, Enforced, AfterTransaction, OverCap;
    var i := db.intents[id];
    AddTransaction(db, Transaction(i.admin, i.amount, Topup, PaymentRef(id)), false);
    if f.Nothing? { return; }
    if i.admin in db.admins { var _ := BillResellerUsage(db, i.admin, f.ratio); }
    if f.Settle? { return; }
    SweptLedger(db.Contents(), f.ratios);
    var unpaid := ResellersWithUnpaidUsage(db, f.billingOn, f.ratios);
    var _, _ := EnforceResellerTrafficCaps(db, unpaid);
  }

  /** The wholesale charge of a sold plan; false stands for the exception it raises. */
  method ChargePortalPlanTariff(db: Session, a: Option<AdminId>, w: Wholesale) returns (ok: bool)
    modifies db`ledger, db`wallets
    ensures ok == !WholesaleFails(old(db.Contents()), a, w)
    ensures db.Contents() == AfterWholesale(old(db.Contents()), a, w)
  {
    hide AfterTransaction;
    if a == None || a.value == 0 || a.value !in db.admins || db.admins[a.value].isSudo || w.NoTariff? { return true; }
    if w.Unmatched? { return false; }
    if w.price <= 0 { return true; }
    var balance := GetOrCreateWallet(db, a.value);
    if balance < w.price { return false; }
    WalletOnce(old(db.Contents()), Transaction(a.value, -w.price, PlanSale, OtherRef));
    AddTransaction(db, Transaction(a.value, -w.price, PlanSale, OtherRef), false);
    return true;
  }

  /** Looking at the wallet before a posting makes no difference to it. */
  lemma WalletOnce(b: Books, tx: Transaction)
    ensures AfterTransaction(WithWallet(b, tx.admin), tx, false) == AfterTransaction(b, tx, false)
  {
    var w := WithWallet(b, tx.admin);
    assert WithWallet(w, tx.admin).wallets == w.wallets;
  }

  /** A portal renewal or purchase: apply the plan, then charge the reseller, then complete. */
  method ApplyPortal(db: Session, id: nat, e: Effects)
    requires id < |db.intents| && db.intents[id].kind != TopupIntent
    modifies db
    ensures PanelOf(db) == AfterPortal(old(PanelOf(db)), id, e)
  {
    hide Renewed, AfterWholesale, WholesaleFails;
    var i := db.intents[id];
    if i.target !in db.users || !e.found { return; }
    var payer := db.users[i.target].admin;
    if i.kind == PortalRenew {
      ApplyPlanToUser(db, i.target, i.plan);
    } else {
      if e.newUser in db.users { return; }
      db.users := db.users[e.newUser := NewAccount(db.users[i.target], i.plan)];
    }
    var ok := ChargePortalPlanTariff(db, payer, e.wholesale);
    if !ok { return; }
    if i.kind == PortalPurchase { i := i.(target := e.newUser); }
    db.intents := db.intents[id := i.(status := Completed)];
  }

  method CompletePayment(db: Session, id: nat, e: Effects)
    modifies db
    ensures PanelOf(db) == AfterComplete(old(PanelOf(db)), id, e)
  {
    hide AfterTopup, AfterPortal, AfterTransaction;
    if id >= |db.intents| || !Open(db.intents[id].status) || !e.verified { return; }
    var i := db.intents[id];
    if i.kind != TopupIntent { ApplyPortal(db, id, e); return; }
    FollowUpGrows(PanelOf(db), id, e.followUp);
    ApplyTopup(db, id, e.followUp);
    db.intents := db.intents[id := i.(status := Completed)];
  }

  method ApprovePayment(db: Session, id: nat, mayReview: bool, e: Effects)
    modifies db
    ensures PanelOf(db) == AfterApprove(old(PanelOf(db)), id, mayReview, e)
  {
    if id >= |db.intents| || !Open(db.intents[id].status) || db.intents[id].provider != Card || !mayReview { return; }
    CompletePayment(db, id, e);
  }

  /** An operator sells a plan to a user. */
  method SellPlan(db: Session, u: UserId, price: int, plan: Option<int>) returns (sold: bool)
    modifies db`ledger, db`wallets, db`users
    ensures PanelOf(db) == AfterSellPlan(old(PanelOf(db)), u, price, plan)
    ensures sold ==> u in db.users && db.users[u] == Renewed(old(db.users)[u], plan)
  {
    hide Renewed, AfterTransaction;
    if u !in db.users || db.users[u].admin == None || db.users[u].admin == Some(0) { return false; }
    var a := db.users[u].admin.value;
    if price > 0 {
      var balance := GetOrCreateWallet(db, a);
      if balance < price { return false; }
      WalletOnce(old(db.Contents()), Transaction(a, -price, PlanSale, OtherRef));
      AddTransaction(db, Transaction(a, -price, PlanSale, OtherRef), false);
    }
    ApplyPlanToUser(db, u, plan);
    return true;
  }
}
