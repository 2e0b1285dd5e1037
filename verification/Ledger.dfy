/** Wallets, the transaction ledger, commissions, invoices and prepaid traffic packages. */
module Ledger {
  import opened Base
  import opened Tables

  function Balance(b: Books, a: AdminId): int {
    if a in b.wallets then b.wallets[a] else 0
  }

  function WithWallet(b: Books, a: AdminId): Books {
    b.(wallets := b.wallets[a := Balance(b, a)])
  }

  /** One ledger line and the matching change of the wallet. */
  function Entered(b: Books, tx: Transaction): Books {
    b.(ledger := b.ledger + [tx], wallets := b.wallets[tx.admin := Balance(b, tx.admin) + tx.amount])
  }

  /** The commission a debit earns the debited reseller's parent, if any. */
  function CommissionFor(b: Books, a: AdminId, debit: int): Option<(AdminId, int)> {
    if debit >= 0 || a !in b.admins || b.admins[a].parent == None || b.admins[a].parent == Some(0) then None
    else
      var pct := if b.admins[a].commissionPercent <= 0 then b.defaultCommission else b.admins[a].commissionPercent;
      var commission := if pct <= 0 then 0 else -debit * pct / 100;
      if commission <= 0 then None else Some((b.admins[a].parent.value, commission))
  }

  function AfterTransaction(b: Books, tx: Transaction, skipCommission: bool): Books
    decreases if skipCommission then 0 else 2
  {
    var c := Entered(WithWallet(b, tx.admin), tx);
    if !skipCommission && tx.amount < 0 && tx.kind != CommissionCredit && tx.kind != InvoicePayment
    then AfterCommission(c, tx.admin, tx.amount, tx.ref) else c
  }

  function AfterCommission(b: Books, a: AdminId, debit: int, ref: Reference): Books
    decreases 1
  {
    var due := CommissionFor(b, a, debit);
    if due == None then b
    else AfterTransaction(b, Transaction(due.value.0, due.value.1, CommissionCredit, ref), true)
  }

  datatype InvoiceOutcome = NoSuchInvoice | AlreadyPaid | IsCanceled | CannotAfford | NowPaid

  function InvoiceResult(b: Books, id: nat): InvoiceOutcome {
    if id !in b.invoices then NoSuchInvoice
    else
      var i := b.invoices[id];
      if i.status == InvoicePaid then AlreadyPaid
      else if i.status == InvoiceCanceled then IsCanceled
      else if Balance(b, i.admin) < i.amount then CannotAfford
      else NowPaid
  }

  function AfterPayInvoice(b: Books, id: nat): Books {
    match InvoiceResult(b, id)
    case CannotAfford => WithWallet(b, b.invoices[id].admin)
    case NowPaid =>
      var i := b.invoices[id];
      var c := WithWallet(b, i.admin).(invoices := b.invoices[id := i.(status := InvoicePaid)]);
      AfterTransaction(c, Transaction(i.admin, -i.amount, InvoicePayment, InvoiceRef(id)), false)
    case _ => b
  }

  // ------------------------------------------------------------------ traffic packages

  datatype Package = Package(enabled: bool, price: int, bytes: int)

  datatype Override = Override(price: Option<int>, bytes: Option<int>)

  /** The packages on sale and the per-reseller overrides of price or volume. */
  datatype Catalog = Catalog(packages: map<nat, Package>, overrides: map<(AdminId, nat), Override>)

  function Offer(c: Catalog, a: AdminId, id: nat): (int, int)
    requires id in c.packages
  {
    var p := c.packages[id];
    if (a, id) !in c.overrides then (p.price, p.bytes)
    else
      var o := c.overrides[(a, id)];
      (if o.price.Some? then o.price.value else p.price, if o.bytes.Some? then o.bytes.value else p.bytes)
  }

  datatype PackageOutcome = NoPackage | NoReseller | BadBytes | TooExpensive | Granted(price: int, bytes: int)

  function PackageResult(b: Books, c: Catalog, a: AdminId, id: nat): PackageOutcome {
    if id !in c.packages || !c.packages[id].enabled then NoPackage
    else if a !in b.admins || b.admins[a].isSudo then NoReseller
    else
      var (price, bytes) := Offer(c, a, id);
      if bytes <= 0 then BadBytes else if Balance(b, a) < price then TooExpensive else Granted(price, bytes)
  }

  function WithTraffic(b: Books, a: AdminId, bytes: int, price: int): Books
    requires a in b.admins
  {
    b.(admins := b.admins[a := b.admins[a].(prepaid := b.admins[a].prepaid + bytes)],
       purchases := b.purchases + [Purchase(a, bytes, price)])
  }

  function AfterPurchase(b: Books, c: Catalog, a: AdminId, id: nat): Books {
    var r := PackageResult(b, c, a, id);
    var w := WithWallet(b, a);
    if !r.Granted? then w
    else if r.price <= 0 then WithTraffic(w, a, r.bytes, r.price)
    else
      var paid := Entered(w, Transaction(a, -r.price, PackageSale, OtherRef));
      AfterCommission(WithTraffic(paid, a, r.bytes, r.price), a, -r.price, OtherRef)
  }

  predicate Creditable(b: Books, a: AdminId, bytes: int) {
    bytes > 0 && a in b.admins && !b.admins[a].isSudo
  }

  function AfterCreditTraffic(b: Books, a: AdminId, bytes: int): Books {
    if Creditable(b, a, bytes) then WithTraffic(b, a, bytes, 0) else b
  }

  // ------------------------------------------------------------------ invariants

  function LedgerSum(l: seq<Transaction>, a: AdminId): int {
    if l == [] then 0
    else LedgerSum(l[..|l| - 1], a) + (if l[|l| - 1].admin == a then l[|l| - 1].amount else 0)
  }

  function GrantedBytes(ps: seq<Purchase>, a: AdminId): int {
    if ps == [] then 0
    else GrantedBytes(ps[..|ps| - 1], a) + (if ps[|ps| - 1].admin == a then ps[|ps| - 1].bytes else 0)
  }

  function CoveredBytes(ss: seq<Settlement>, a: AdminId): int {
    if ss == [] then 0
    else CoveredBytes(ss[..|ss| - 1], a) + (if ss[|ss| - 1].admin == a then ss[|ss| - 1].covered else 0)
  }

  /** Every wallet holds the sum of its reseller's ledger lines. */
  ghost predicate WalletsMatchLedger(b: Books) {
    forall a :: Balance(b, a) == LedgerSum(b.ledger, a)
  }

  /** Prepaid traffic is what was bought or granted less what was covered, and never negative. */
  ghost predicate PrepaidMatches(b: Books) {
    forall a :: a in b.admins ==>
      b.admins[a].prepaid == GrantedBytes(b.purchases, a) - CoveredBytes(b.settlements, a) >= 0
  }

  ghost predicate Solvent(b: Books) {
    forall a :: Balance(b, a) >= 0
  }

  lemma EnteredSum(l: seq<Transaction>, tx: Transaction, a: AdminId)
    ensures LedgerSum(l + [tx], a) == LedgerSum(l, a) + if tx.admin == a then tx.amount else 0
  {
    assert (l + [tx])[..|l|] == l;
  }

  lemma EnteredKeepsMatch(b: Books, tx: Transaction)
    requires WalletsMatchLedger(b)
    ensures WalletsMatchLedger(Entered(WithWallet(b, tx.admin), tx)) && WalletsMatchLedger(WithWallet(b, tx.admin))
  {
    var c := Entered(WithWallet(b, tx.admin), tx);
    forall a ensures Balance(c, a) == LedgerSum(c.ledger, a) {
      EnteredSum(b.ledger, tx, a);
      assert Balance(b, a) == LedgerSum(b.ledger, a);
    }
    forall a ensures Balance(WithWallet(b, tx.admin), a) == Balance(b, a) {}
  }

  /** A transaction touches the ledger and the wallets only, keeps them in step, and adds exactly
      its own line and, for a debit that earns one, the parent's commission. */
  lemma TransactionKeepsMatch(b: Books, tx: Transaction, skip: bool)
    requires WalletsMatchLedger(b)
    ensures var c := AfterTransaction(b, tx, skip);
            && WalletsMatchLedger(c)
            && c == b.(ledger := c.ledger, wallets := c.wallets)
            && |b.ledger| + 1 <= |c.ledger| <= |b.ledger| + 2
            && c.ledger[..|b.ledger|] == b.ledger && c.ledger[|b.ledger|] == tx
            && (|c.ledger| == |b.ledger| + 2 ==>
                  c.ledger[|b.ledger| + 1].kind == CommissionCredit && c.ledger[|b.ledger| + 1].amount > 0)
    decreases if skip then 0 else 2
  {
    EnteredKeepsMatch(b, tx);
    var c := Entered(WithWallet(b, tx.admin), tx);
    if !skip && tx.amount < 0 && tx.kind != CommissionCredit && tx.kind != InvoicePayment {
      CommissionKeepsMatch(c, tx.admin, tx.amount, tx.ref);
      var d := AfterCommission(c, tx.admin, tx.amount, tx.ref);
      assert d.ledger[..|b.ledger|] == c.ledger[..|b.ledger|];
    }
  }

  lemma CommissionKeepsMatch(b: Books, a: AdminId, debit: int, ref: Reference)
    requires WalletsMatchLedger(b)
    ensures var c := AfterCommission(b, a, debit, ref);
            && WalletsMatchLedger(c)
            && c == b.(ledger := c.ledger, wallets := c.wallets)
            && (c == b || (|c.ledger| == |b.ledger| + 1 && c.ledger[|b.ledger|].kind == CommissionCredit &&
                           c.ledger[|b.ledger|].amount > 0))
            && |c.ledger| >= |b.ledger| && c.ledger[..|b.ledger|] == b.ledger
    decreases 1
  {
    var due := CommissionFor(b, a, debit);
    if due.Some? {
      TransactionKeepsMatch(b, Transaction(due.value.0, due.value.1, CommissionCredit, ref), true);
      assert |AfterCommission(b, a, debit, ref).ledger| == |b.ledger| + 1;
    }
  }

  /** The commission a transaction earns someone, if any. */
  function DueFor(b: Books, tx: Transaction, skip: bool): Option<(AdminId, int)> {
    if !skip && tx.amount < 0 && tx.kind != CommissionCredit && tx.kind != InvoicePayment
    then CommissionFor(b, tx.admin, tx.amount) else None
  }

  /** What a transaction does to the wallets: its own moves by the amount, the parent's rises by the
      commission that is due, if one is, and no other wallet moves. */
  lemma TransactionMovesWallets(b: Books, tx: Transaction, skip: bool, x: AdminId)
    ensures var due := DueFor(b, tx, skip);
            && Balance(AfterTransaction(b, tx, skip), x)
                 == Balance(b, x) + (if x == tx.admin then tx.amount else 0)
                                  + (if due.Some? && x == due.value.0 then due.value.1 else 0)
            && (due.Some? ==> due.value.1 > 0)
    decreases if skip then 0 else 2
  {
    var c := Entered(WithWallet(b, tx.admin), tx);
    var due := DueFor(b, tx, skip);
    assert CommissionFor(c, tx.admin, tx.amount) == CommissionFor(b, tx.admin, tx.amount);
    if due.Some? {
      TransactionMovesWallets(c, Transaction(due.value.0, due.value.1, CommissionCredit, tx.ref), true, x);
    }
  }

  lemma TransactionWritesItsLine(b: Books, tx: Transaction, skip: bool)
    ensures var c := AfterTransaction(b, tx, skip); |b.ledger| < |c.ledger| && c.ledger[|b.ledger|] == tx
    decreases if skip then 0 else 2
  {
    var c := Entered(WithWallet(b, tx.admin), tx);
    var due := DueFor(c, tx, skip);
    if due.Some? {
      TransactionWritesItsLine(c, Transaction(due.value.0, due.value.1, CommissionCredit, tx.ref), true);
    }
  }

  /** The percentage of a reseller's debits that goes to its parent: its own, or the panel's. */
  function PercentOf(b: Books, a: AdminId): int
    requires a in b.admins
  {
    if b.admins[a].commissionPercent > 0 then b.admins[a].commissionPercent else b.defaultCommission
  }

  predicate HasParent(b: Books, a: AdminId) {
    a in b.admins && b.admins[a].parent.Some? && b.admins[a].parent.value != 0
  }

  /** The debits a parent shares in: all but commissions and paid invoices. */
  predicate Earning(tx: Transaction) { tx.amount < 0 && tx.kind != CommissionCredit && tx.kind != InvoicePayment }

  /** A debit takes its amount from the debited wallet and gives the parent, if there is one, the
      percentage of it, rounded down; no other wallet moves, and nothing else is shared. */
  lemma DebitPaysParent(b: Books, tx: Transaction, skip: bool) returns (commission: int)
    ensures forall x :: Balance(AfterTransaction(b, tx, skip), x)
                     == Balance(b, x) + (if x == tx.admin then tx.amount else 0)
                                      + (if HasParent(b, tx.admin) && b.admins[tx.admin].parent == Some(x) then commission else 0)
    ensures commission != 0 ==> !skip && Earning(tx) && HasParent(b, tx.admin)
    ensures !skip && Earning(tx) && HasParent(b, tx.admin) ==>
              if PercentOf(b, tx.admin) > 0 then FloorOf(commission, -tx.amount * PercentOf(b, tx.admin), 100)
              else commission == 0
  {
    var due := DueFor(b, tx, skip);
    commission := if due.Some? then due.value.1 else 0;
    forall x ensures Balance(AfterTransaction(b, tx, skip), x)
                  == Balance(b, x) + (if x == tx.admin then tx.amount else 0)
                                   + (if due.Some? && x == due.value.0 then due.value.1 else 0)
    {
      TransactionMovesWallets(b, tx, skip, x);
    }
    if !skip && Earning(tx) && HasParent(b, tx.admin) && PercentOf(b, tx.admin) > 0 {
      var share := -tx.amount * PercentOf(b, tx.admin);
      FloorOfIff(share / 100, share, 100);
      assert share > 0;
    }
  }

  /** Usage charges, invoices and package sales check the balance first, so none overdraws. */
  lemma AffordableDebitKeepsSolvent(b: Books, tx: Transaction, skip: bool)
    requires Solvent(b) && Balance(b, tx.admin) + tx.amount >= 0
    ensures Solvent(AfterTransaction(b, tx, skip))
  {
    var c := AfterTransaction(b, tx, skip);
    forall a ensures Balance(c, a) >= 0 {
      TransactionMovesWallets(b, tx, skip, a);
      assert Balance(b, a) >= 0;
    }
  }

  lemma PayInvoiceKeeps(b: Books, id: nat)
    requires WalletsMatchLedger(b) && PrepaidMatches(b)
    ensures WalletsMatchLedger(AfterPayInvoice(b, id)) && PrepaidMatches(AfterPayInvoice(b, id))
    ensures Solvent(b) ==> Solvent(AfterPayInvoice(b, id))
    ensures InvoiceResult(b, id) != NowPaid ==> AfterPayInvoice(b, id).ledger == b.ledger
  {
    var r := InvoiceResult(b, id);
    if r == CannotAfford {
      EnteredKeepsMatch(b, Transaction(b.invoices[id].admin, 0, Debit, OtherRef));
      forall a ensures Balance(WithWallet(b, b.invoices[id].admin), a) == Balance(b, a) {}
    } else if r == NowPaid {
      var i := b.invoices[id];
      var c := WithWallet(b, i.admin).(invoices := b.invoices[id := i.(status := InvoicePaid)]);
      var tx := Transaction(i.admin, -i.amount, InvoicePayment, InvoiceRef(id));
      forall a ensures Balance(c, a) == Balance(b, a) {}
      assert WalletsMatchLedger(c);
      TransactionKeepsMatch(c, tx, false);
      if Solvent(b) {
        assert Solvent(c);
        AffordableDebitKeepsSolvent(c, tx, false);
      }
    }
  }

  lemma GrantedSum(ps: seq<Purchase>, p: Purchase, a: AdminId)
    ensures GrantedBytes(ps + [p], a) == GrantedBytes(ps, a) + if p.admin == a then p.bytes else 0
  {
    assert (ps + [p])[..|ps|] == ps;
  }

  lemma WithTrafficKeeps(b: Books, a: AdminId, bytes: int, price: int)
    requires a in b.admins && bytes > 0 && WalletsMatchLedger(b) && PrepaidMatches(b)
    ensures WalletsMatchLedger(WithTraffic(b, a, bytes, price)) && PrepaidMatches(WithTraffic(b, a, bytes, price))
    ensures Solvent(b) ==> Solvent(WithTraffic(b, a, bytes, price))
  {
    var c := WithTraffic(b, a, bytes, price);
    forall x ensures Balance(c, x) == Balance(b, x) && (Solvent(b) ==> Balance(b, x) >= 0) {}
    forall x | x in c.admins
      ensures c.admins[x].prepaid == GrantedBytes(c.purchases, x) - CoveredBytes(c.settlements, x) >= 0
    {
      GrantedSum(b.purchases, Purchase(a, bytes, price), x);
    }
  }

  /** Buying a package moves money and traffic together: it never overdraws, and the wallets and
      the prepaid traffic stay equal to their books, commission included. */
  lemma PurchaseKeeps(b: Books, cat: Catalog, a: AdminId, id: nat)
    requires WalletsMatchLedger(b) && PrepaidMatches(b)
    ensures WalletsMatchLedger(AfterPurchase(b, cat, a, id)) && PrepaidMatches(AfterPurchase(b, cat, a, id))
    ensures Solvent(b) ==> Solvent(AfterPurchase(b, cat, a, id))
  {
    var r := PackageResult(b, cat, a, id);
    var w := WithWallet(b, a);
    forall x ensures Balance(w, x) == Balance(b, x) {}
    assert WalletsMatchLedger(w) && PrepaidMatches(w);
    if r.Granted? && r.price <= 0 {
      WithTrafficKeeps(w, a, r.bytes, r.price);
    } else if r.Granted? {
      var tx := Transaction(a, -r.price, PackageSale, OtherRef);
      EnteredKeepsMatch(w, tx);
      assert WithWallet(w, a) == w by { assert w.wallets == w.wallets[a := Balance(w, a)]; }
      var paid := Entered(w, tx);
      if Solvent(b) {
        assert Solvent(w);
        forall x ensures Balance(paid, x) >= 0 { assert Balance(w, x) >= 0; }
      }
      WithTrafficKeeps(paid, a, r.bytes, r.price);
      var t := WithTraffic(paid, a, r.bytes, r.price);
      CommissionKeepsMatch(t, a, -r.price, OtherRef);
      CommissionKeepsSolvent(t, a, -r.price, OtherRef);
    }
  }

  /** What a package costs and holds for a reseller: its own figures where it has any, and the
      catalogue's otherwise. */
  ghost predicate OfferIs(cat: Catalog, a: AdminId, id: nat, price: int, bytes: int) {
    && id in cat.packages
    && price == (if (a, id) in cat.overrides && cat.overrides[(a, id)].price.Some? then cat.overrides[(a, id)].price.value
                 else cat.packages[id].price)
    && bytes == (if (a, id) in cat.overrides && cat.overrides[(a, id)].bytes.Some? then cat.overrides[(a, id)].bytes.value
                 else cat.packages[id].bytes)
  }

  /** A purchase is for resellers, of enabled packages that hold something, and only if the wallet
      holds the price; then it adds the bytes and debits the price, and otherwise it does nothing. */
  lemma PurchaseMeans(b: Books, cat: Catalog, a: AdminId, id: nat, price: int, bytes: int)
    requires OfferIs(cat, a, id, price, bytes)
    ensures var c := AfterPurchase(b, cat, a, id);
            if cat.packages[id].enabled && a in b.admins && !b.admins[a].isSudo && bytes > 0 && price <= Balance(b, a) then
              && c.admins == b.admins[a := b.admins[a].(prepaid := b.admins[a].prepaid + bytes)]
              && c.purchases == b.purchases + [Purchase(a, bytes, price)]
              && (price > 0 ==> |b.ledger| < |c.ledger| && c.ledger[|b.ledger|] == Transaction(a, -price, PackageSale, OtherRef))
              && (price <= 0 ==> c.ledger == b.ledger)
            else c == WithWallet(b, a)
  {
    hide AfterTransaction;
    var w := WithWallet(b, a);
    if cat.packages[id].enabled && a in b.admins && !b.admins[a].isSudo && bytes > 0 && 0 < price <= Balance(b, a) {
      var t := WithTraffic(Entered(w, Transaction(a, -price, PackageSale, OtherRef)), a, bytes, price);
      CommissionOnlyPosts(t, a, -price, OtherRef);
    }
  }

  lemma CommissionOnlyPosts(b: Books, a: AdminId, debit: int, ref: Reference)
    ensures var c := AfterCommission(b, a, debit, ref);
            c == b.(ledger := c.ledger, wallets := c.wallets) && |b.ledger| <= |c.ledger| && c.ledger[..|b.ledger|] == b.ledger
  {
    var due := CommissionFor(b, a, debit);
    if due.Some? {
      var line := Transaction(due.value.0, due.value.1, CommissionCredit, ref);
      assert AfterTransaction(b, line, true) == Entered(WithWallet(b, line.admin), line);
    }
  }

  /** A grant gives a reseller exactly the bytes, at no price; sudo admins, unknown ones and grants of
      nothing change nothing. */
  lemma GrantMeans(b: Books, a: AdminId, bytes: int)
    ensures AfterCreditTraffic(b, a, bytes) ==
            if bytes > 0 && a in b.admins && !b.admins[a].isSudo
            then b.(admins := b.admins[a := b.admins[a].(prepaid := b.admins[a].prepaid + bytes)],
                    purchases := b.purchases + [Purchase(a, bytes, 0)])
            else b
  {
  }

  /** A pending invoice that the wallet can pay is paid once, in full and without a commission; any
      other is left as it is, and so is every wallet. */
  lemma PayInvoiceMeans(b: Books, id: nat)
    ensures var c := AfterPayInvoice(b, id);
            if id in b.invoices && b.invoices[id].status == InvoicePending && b.invoices[id].amount <= Balance(b, b.invoices[id].admin) then
              var i := b.invoices[id];
              && c.invoices == b.invoices[id := i.(status := InvoicePaid)]
              && c.ledger == b.ledger + [Transaction(i.admin, -i.amount, InvoicePayment, InvoiceRef(id))]
              && (forall x :: Balance(c, x) == Balance(b, x) - if x == i.admin then i.amount else 0)
            else c.invoices == b.invoices && c.ledger == b.ledger && forall x :: Balance(c, x) == Balance(b, x)
  {
  }

  lemma CommissionKeepsSolvent(b: Books, a: AdminId, debit: int, ref: Reference)
    ensures Solvent(b) ==> Solvent(AfterCommission(b, a, debit, ref))
  {
    var due := CommissionFor(b, a, debit);
    if Solvent(b) && due.Some? {
      assert Balance(b, due.value.0) >= 0;
      AffordableDebitKeepsSolvent(b, Transaction(due.value.0, due.value.1, CommissionCredit, ref), true);
    }
  }

  // ------------------------------------------------------------------ the operations on a session

  method GetOrCreateWallet(db: Session, a: AdminId) returns (balance: int)
    modifies db`wallets
    ensures db.Contents() == WithWallet(old(db.Contents()), a) && balance == Balance(old(db.Contents()), a)
  {
    balance := 0;
    if a in db.wallets { balance := db.wallets[a]; }
    db.wallets := db.wallets[a := balance];
  }

  method AddTransaction(db: Session, tx: Transaction, skipCommission: bool)
    modifies db`ledger, db`wallets
    ensures db.Contents() == AfterTransaction(old(db.Contents()), tx, skipCommission)
    decreases if skipCommission then 0 else 2
  {
    hide CommissionFor, HasParent, PercentOf, FloorOf;
    var balance := GetOrCreateWallet(db, tx.admin);
    db.ledger := db.ledger + [tx];
    db.wallets := db.wallets[tx.admin := balance + tx.amount];
    if !skipCommission && tx.amount < 0 && tx.kind != CommissionCredit && tx.kind != InvoicePayment {
      var _ := CreditParentCommission(db, tx.admin, tx.amount, tx.ref);
    }
  }

  method CreditParentCommission(db: Session, a: AdminId, debit: int, ref: Reference) returns (commission: int)
    modifies db`ledger, db`wallets
    ensures db.Contents() == AfterCommission(old(db.Contents()), a, debit, ref)
    ensures commission != 0 ==> debit < 0 && HasParent(db.Contents(), a) && PercentOf(db.Contents(), a) > 0
    ensures debit < 0 && HasParent(db.Contents(), a) && PercentOf(db.Contents(), a) > 0 ==>
              FloorOf(commission, -debit * PercentOf(db.Contents(), a), 100)
    ensures if commission == 0 then db.Contents() == old(db.Contents())
            else var p := db.admins[a].parent.value;
                 && db.ledger == old(db.ledger) + [Transaction(p, commission, CommissionCredit, ref)]
                 && db.wallets == old(db.wallets)[p := Balance(old(db.Contents()), p) + commission]
    decreases 1
  {
    commission := 0;
    if debit >= 0 { return; }
    if a !in db.admins || db.admins[a].parent == None || db.admins[a].parent == Some(0) { return; }
    var pct := db.admins[a].commissionPercent;
    if pct <= 0 { pct := db.defaultCommission; }
    if pct <= 0 { return; }
    commission := -debit * pct / 100;
    FloorOfIff(commission, -debit * pct, 100);
    assert -debit * pct >= 0;
    hide FloorOf;
    if commission <= 0 { return; }
    AddTransaction(db, Transaction(db.admins[a].parent.value, commission, CommissionCredit, ref), true);
  }

  method PayInvoice(db: Session, id: nat) returns (r: InvoiceOutcome)
    modifies db`invoices, db`ledger, db`wallets
    ensures r == InvoiceResult(old(db.Contents()), id)
    ensures db.Contents() == AfterPayInvoice(old(db.Contents()), id)
  {
    if id !in db.invoices { return NoSuchInvoice; }
    var i := db.invoices[id];
    if i.status == InvoicePaid { return AlreadyPaid; }
    if i.status == InvoiceCanceled { return IsCanceled; }
    var balance := GetOrCreateWallet(db, i.admin);
    if balance < i.amount { return CannotAfford; }
    db.invoices := db.invoices[id := i.(status := InvoicePaid)];
    AddTransaction(db, Transaction(i.admin, -i.amount, InvoicePayment, InvoiceRef(id)), false);
    return NowPaid;
  }

  method PurchasePackage(db: Session, cat: Catalog, a: AdminId, id: nat) returns (r: PackageOutcome)
    modifies db`admins, db`purchases, db`ledger, db`wallets
    ensures r == PackageResult(old(db.Contents()), cat, a, id)
    ensures db.Contents() == AfterPurchase(old(db.Contents()), cat, a, id)
  {
    hide AfterTransaction, AfterCommission, CommissionFor, HasParent, PercentOf, FloorOf;
    var balance := GetOrCreateWallet(db, a);
    if id !in cat.packages || !cat.packages[id].enabled { return NoPackage; }
    if a !in db.admins || db.admins[a].isSudo { return NoReseller; }
    var (price, bytes) := Offer(cat, a, id);
    if bytes <= 0 { return BadBytes; }
    if balance < price { return TooExpensive; }
    if price > 0 {
      db.ledger := db.ledger + [Transaction(a, -price, PackageSale, OtherRef)];
      db.wallets := db.wallets[a := balance - price];
    }
    db.admins := db.admins[a := db.admins[a].(prepaid := db.admins[a].prepaid + bytes)];
    db.purchases := db.purchases + [Purchase(a, bytes, price)];
    if price > 0 { var _ := CreditParentCommission(db, a, -price, OtherRef); }
    return Granted(price, bytes);
  }

  method CreditTraffic(db: Session, a: AdminId, bytes: int) returns (ok: bool)
    modifies db`admins, db`purchases
    ensures ok == Creditable(old(db.Contents()), a, bytes)
    ensures db.Contents() == AfterCreditTraffic(old(db.Contents()), a, bytes)
  {
    if bytes <= 0 { return false; }
    if a !in db.admins || db.admins[a].isSudo { return false; }
    db.admins := db.admins[a := db.admins[a].(prepaid := db.admins[a].prepaid + bytes)];
    db.purchases := db.purchases + [Purchase(a, bytes, 0)];
    return true;
  }
}
