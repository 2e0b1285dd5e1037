/** Pay-as-you-go billing of a reseller's traffic: the byte watermark, prepaid cover, the
    floor-divided charge, and the three separately written tests for an unpaid reseller. */
module UsageBilling {
  import opened Base
  import opened Tables
  import opened Ledger

  const GB: int := 1024 * 1024 * 1024

  datatype UsageSplit = UsageSplit(owned: int, foreign: int) {
    function Total(): int { owned + foreign }
  }

  /** The last day's traffic on the reseller's own nodes and on shared ones. */
  datatype Ratio = Ratio(owned: nat, foreign: nat)

  function EffectiveRate(base: int, discountPercent: int): int {
    var pct := Max(0, Min(100, discountPercent));
    Max(0, base * (100 - pct) / 100)
  }

  function ComputeCharge(s: UsageSplit, rate: int, discountPercent: int): int {
    if rate <= 0 then 0
    else s.owned * EffectiveRate(rate, discountPercent) / GB + s.foreign * rate / GB
  }

  /** What a split is worth before rounding, in rate-bytes. */
  function Worth(s: UsageSplit, rate: int, discountPercent: int): int {
    s.owned * EffectiveRate(rate, discountPercent) + s.foreign * rate
  }

  function ApplyPrepaidCover(s: UsageSplit, prepaid: int): (UsageSplit, int) {
    var p := Max(0, prepaid);
    if p <= 0 || s.Total() <= 0 then (s, 0)
    else
      var coverForeign := Min(s.foreign, p);
      var coverOwned := Min(s.owned, p - coverForeign);
      (UsageSplit(s.owned - coverOwned, s.foreign - coverForeign), coverForeign + coverOwned)
  }

  function OwnershipSplit(delta: int, r: Ratio): UsageSplit {
    if delta <= 0 then UsageSplit(0, 0)
    else if r.owned + r.foreign <= 0 then UsageSplit(0, delta)
    else
      var owned := delta * r.owned / (r.owned + r.foreign);
      UsageSplit(owned, delta - owned)
  }

  /** The watermark to bill from: a missing checkpoint starts at the current usage, and a usage
      counter that was reset restarts it. */
  function Watermark(m: Admin): int {
    if m.checkpoint == None then m.usersUsage else Min(m.checkpoint.value, m.usersUsage)
  }

  function UnbilledSplit(m: Admin, r: Ratio): UsageSplit {
    OwnershipSplit(Max(0, m.usersUsage - Watermark(m)), r)
  }

  function RateFor(b: Books, m: Admin): int {
    if m.usageRate.Some? then m.usageRate.value else b.platformRate
  }

  // ------------------------------------------------------------------ arithmetic of one bill

  lemma MulStrict(a: int, b: int, d: int)
    requires a > b && d > 0
    ensures a * d > b * d
  {
    assert (a - b) * d > 0;
  }

  lemma FloorBounds(x: int, d: int)
    requires d > 0
    ensures x / d * d <= x < x / d * d + d
  {
  }

  lemma DivBound(x: int, q: int, d: int)
    requires d > 0 && 0 <= x <= q * d
    ensures 0 <= x / d <= q
  {
    FloorBounds(x, d);
    if x / d > q { MulStrict(x / d, q, d); }
  }

  /** The split neither loses nor invents a byte, and gives the reseller's own nodes their share of
      the last day's traffic, rounded down; without any, all bytes are shared. */
  lemma SplitConserves(delta: int, r: Ratio)
    ensures var s := OwnershipSplit(delta, r);
            && s.owned >= 0 && s.foreign >= 0 && s.Total() == Max(0, delta)
            && (delta > 0 && r.owned + r.foreign > 0 ==> FloorOf(s.owned, delta * r.owned, r.owned + r.foreign))
            && (r.owned + r.foreign == 0 ==> s.owned == 0)
  {
    if delta > 0 && r.owned + r.foreign > 0 {
      assert 0 <= delta * r.owned <= delta * (r.owned + r.foreign);
      DivBound(delta * r.owned, delta, r.owned + r.foreign);
      FloorOfIff(delta * r.owned / (r.owned + r.foreign), delta * r.owned, r.owned + r.foreign);
    }
  }

  /** Prepaid traffic covers all it can, shared bytes before the reseller's own. */
  lemma CoverConserves(s: UsageSplit, prepaid: int)
    requires s.owned >= 0 && s.foreign >= 0
    ensures var (o, covered) := ApplyPrepaidCover(s, prepaid);
            && o.owned >= 0 && o.foreign >= 0 && 0 <= covered <= Max(0, prepaid)
            && o.Total() + covered == s.Total()
            && (o.Total() > 0 ==> covered == Max(0, prepaid))
            && (o.foreign > 0 ==> o.owned == s.owned)
  {
  }

  /** The rate less the discount, rounded down; a discount counts as at least 0 and at most 100. */
  lemma RateBounds(rate: int, discountPercent: int)
    requires rate > 0
    ensures 0 <= EffectiveRate(rate, discountPercent) <= rate
    ensures discountPercent <= 0 ==> EffectiveRate(rate, discountPercent) == rate
    ensures discountPercent >= 100 ==> EffectiveRate(rate, discountPercent) == 0
    ensures 0 <= discountPercent <= 100 ==>
              FloorOf(EffectiveRate(rate, discountPercent), rate * (100 - discountPercent), 100)
  {
    var pct := Max(0, Min(100, discountPercent));
    assert 0 <= rate * (100 - pct) <= rate * 100;
    DivBound(rate * (100 - pct), rate, 100);
    FloorOfIff(rate * (100 - pct) / 100, rate * (100 - pct), 100);
  }

  /** Rounding loses less than one unit on each side of the split, and never gains. */
  lemma ChargeBounds(s: UsageSplit, rate: int, discountPercent: int)
    requires rate > 0 && s.owned >= 0 && s.foreign >= 0
    ensures var c := ComputeCharge(s, rate, discountPercent);
            c >= 0 && c * GB <= Worth(s, rate, discountPercent) < (c + 2) * GB
  {
    RateBounds(rate, discountPercent);
    var owned, foreign := s.owned * EffectiveRate(rate, discountPercent), s.foreign * rate;
    FloorBounds(owned, GB);
    FloorBounds(foreign, GB);
    assert owned >= 0 && foreign >= 0;
  }

  lemma ZeroDiscountWorth(s: UsageSplit, rate: int)
    requires rate > 0
    ensures Worth(s, rate, 0) == rate * s.Total()
  {
    RateBounds(rate, 0);
  }

  lemma NoBytesNoCost(s: UsageSplit, prepaid: int, rate: int, discountPercent: int)
    requires s.owned >= 0 && s.foreign >= 0 && s.Total() <= 0
    ensures ComputeCharge(ApplyPrepaidCover(s, prepaid).0, rate, discountPercent) == 0
  {
    assert s == UsageSplit(0, 0);
    assert 0 * EffectiveRate(rate, discountPercent) == 0;
  }

  // ------------------------------------------------------------------ the bill

  /** The figures a bill works with. */
  datatype Quote = Quote(rate: int, split: UsageSplit, overflow: UsageSplit, covered: int, cost: int, worth: int)

  function QuoteFor(m: Admin, rate: int, r: Ratio): Quote {
    var split := UnbilledSplit(m, r);
    var (overflow, covered) := ApplyPrepaidCover(split, m.prepaid);
    Quote(rate, split, overflow, covered,
          ComputeCharge(overflow, rate, m.discountPercent), Worth(overflow, rate, m.discountPercent))
  }

  /** The bytes of a quote are conserved, and cover comes out of the prepaid traffic. */
  ghost predicate BytesOk(m: Admin, q: Quote) {
    && q.split.Total() == m.usersUsage - Watermark(m) >= 0
    && q.overflow.Total() + q.covered == q.split.Total()
    && q.overflow.Total() >= 0 && 0 <= q.covered <= Max(0, m.prepaid)
  }

  /** The cost of a quote is its worth rounded down by less than two units. */
  ghost predicate CostOk(m: Admin, q: Quote) {
    && 0 <= q.cost && q.cost * GB <= q.worth < (q.cost + 2) * GB
    && (q.split.Total() == 0 ==> q.cost == 0)
    && (m.discountPercent == 0 ==> q.worth == q.rate * q.overflow.Total())
  }

  lemma QuoteIsOk(m: Admin, rate: int, r: Ratio)
    requires rate > 0
    ensures BytesOk(m, QuoteFor(m, rate, r)) && CostOk(m, QuoteFor(m, rate, r))
  {
    hide BytesOk, CostOk, QuoteFor;
    BytesAreOk(m, rate, r);
    CostIsOk(m, rate, r, UnbilledSplit(m, r), ApplyPrepaidCover(UnbilledSplit(m, r), m.prepaid).0);
  }

  lemma BytesAreOk(m: Admin, rate: int, r: Ratio)
    ensures BytesOk(m, QuoteFor(m, rate, r))
    ensures var s := UnbilledSplit(m, r);
            var o := ApplyPrepaidCover(s, m.prepaid).0;
            s.owned >= 0 && s.foreign >= 0 && o.owned >= 0 && o.foreign >= 0
  {
    hide *;
    var s := UnbilledSplit(m, r);
    UnbilledBytes(m, r);
    CoverConserves(s, m.prepaid);
    QuoteBytes(m, rate, r);
    CombineBytes(m, QuoteFor(m, rate, r), s);
  }

  lemma UnbilledBytes(m: Admin, r: Ratio)
    ensures var s := UnbilledSplit(m, r);
            s.owned >= 0 && s.foreign >= 0 && s.Total() == m.usersUsage - Watermark(m) >= 0
  {
    hide OwnershipSplit;
    SplitConserves(Max(0, m.usersUsage - Watermark(m)), r);
  }

  lemma QuoteBytes(m: Admin, rate: int, r: Ratio)
    ensures var q := QuoteFor(m, rate, r);
            q.split == UnbilledSplit(m, r) && (q.overflow, q.covered) == ApplyPrepaidCover(q.split, m.prepaid)
  {
    hide ComputeCharge, Worth, UnbilledSplit, ApplyPrepaidCover;
  }

  lemma CombineBytes(m: Admin, q: Quote, s: UsageSplit)
    requires q.split == s && s.Total() == m.usersUsage - Watermark(m) >= 0
    requires q.overflow.owned >= 0 && q.overflow.foreign >= 0 && 0 <= q.covered <= Max(0, m.prepaid)
    requires q.overflow.Total() + q.covered == s.Total()
    ensures BytesOk(m, q)
  {
  }

  lemma CostIsOk(m: Admin, rate: int, r: Ratio, s: UsageSplit, o: UsageSplit)
    requires rate > 0 && s == UnbilledSplit(m, r) && o == ApplyPrepaidCover(s, m.prepaid).0
    requires s.owned >= 0 && s.foreign >= 0 && o.owned >= 0 && o.foreign >= 0
    ensures CostOk(m, QuoteFor(m, rate, r))
  {
    hide ComputeCharge, Worth, OwnershipSplit, EffectiveRate, ApplyPrepaidCover;
    ChargeBounds(o, rate, m.discountPercent);
    if s.Total() == 0 { NoBytesNoCost(s, m.prepaid, rate, m.discountPercent); }
    if m.discountPercent == 0 { ZeroDiscountWorth(o, rate); }
  }

  /** The terms of a bill, worked out from a reseller's row: the bytes since the watermark, the
      rate, the discounted rate, the bytes on its own nodes, and the units owed for what prepaid
      traffic leaves of each kind, every quotient rounded down. */
  datatype Terms = Terms(bytes: int, rate: int, discounted: int, own: int, forOwn: int, forShared: int) {
    function Cost(): int { forOwn + forShared }
  }

  /** `own` is the part of `bytes` that falls to the reseller's own nodes. */
  ghost predicate OwnShare(bytes: int, r: Ratio, own: int) {
    if r.owned + r.foreign > 0 then FloorOf(own, bytes * r.owned, r.owned + r.foreign) else own == 0
  }

  function LeftOver(x: int, taken: int): int { if x <= taken then 0 else x - taken }

  /** `units` is what that many bytes cost at that rate a gigabyte, rounded down. */
  ghost predicate Priced(units: int, bytes: int, rate: int) { FloorOf(units, bytes * rate, GB) }

  ghost predicate TermsOf(b: Books, m: Admin, r: Ratio, t: Terms) {
    && t.bytes == (match m.checkpoint
                   case None => 0
                   case Some(low) => if low <= m.usersUsage then m.usersUsage - low else 0)
    && t.rate == (match m.usageRate case None => b.platformRate case Some(own) => own)
    && t.rate > 0
    && FloorOf(t.discounted,
               if m.discountPercent < 0 then t.rate * 100
               else if m.discountPercent > 100 then 0 else t.rate * (100 - m.discountPercent), 100)
    && OwnShare(t.bytes, r, t.own)
    && (var prepaid := if m.prepaid > 0 then m.prepaid else 0;
        var shared := t.bytes - t.own;
        && Priced(t.forShared, LeftOver(shared, prepaid), t.rate)
        && Priced(t.forOwn, LeftOver(t.own, LeftOver(prepaid, shared)), t.discounted))
  }

  lemma OwnShareIsUnique(bytes: int, r: Ratio, own: int, other: int)
    requires OwnShare(bytes, r, own) && OwnShare(bytes, r, other)
    ensures own == other
  {
    hide FloorOf;
    var n := r.owned + r.foreign;
    if n > 0 {
      FloorIsUnique(own, other, bytes * r.owned, n);
      FloorIsUnique(other, own, bytes * r.owned, n);
    }
  }

  lemma SplitGivesOwnShare(bytes: int, r: Ratio)
    requires bytes >= 0
    ensures OwnShare(bytes, r, OwnershipSplit(bytes, r).owned)
  {
    hide FloorOf, OwnershipSplit;
    if bytes == 0 { NothingToSplit(r); } else { SplitConserves(bytes, r); }
  }

  lemma NothingToSplit(r: Ratio)
    ensures OwnershipSplit(0, r) == UsageSplit(0, 0) && OwnShare(0, r, 0)
  {
    assert 0 * r.owned == 0;
  }

  lemma OwnIsTheSplit(bytes: int, r: Ratio, own: int)
    requires bytes >= 0 && OwnShare(bytes, r, own)
    ensures OwnershipSplit(bytes, r) == UsageSplit(own, bytes - own) && 0 <= own <= bytes
  {
    hide OwnShare, FloorOf, OwnershipSplit;
    var s := OwnershipSplit(bytes, r);
    SplitGivesOwnShare(bytes, r);
    OwnShareIsUnique(bytes, r, own, s.owned);
    SplitConserves(bytes, r);
  }

  lemma DiscountedIsTheRate(rate: int, percent: int, discounted: int)
    requires rate > 0
    requires FloorOf(discounted, if percent < 0 then rate * 100 else if percent > 100 then 0 else rate * (100 - percent), 100)
    ensures discounted == EffectiveRate(rate, percent) && discounted >= 0
  {
    RateBounds(rate, percent);
    FloorOfIff(discounted, if percent < 0 then rate * 100 else if percent > 100 then 0 else rate * (100 - percent), 100);
    if 0 <= percent <= 100 { FloorOfIff(EffectiveRate(rate, percent), rate * (100 - percent), 100); }
  }

  lemma ChargeIs(o: UsageSplit, rate: int, percent: int, discounted: int, forOwn: int, forShared: int)
    requires rate > 0 && discounted == EffectiveRate(rate, percent) && discounted >= 0 && o.owned >= 0 && o.foreign >= 0
    requires Priced(forOwn, o.owned, discounted) && Priced(forShared, o.foreign, rate)
    ensures ComputeCharge(o, rate, percent) == forOwn + forShared && forOwn >= 0 && forShared >= 0
  {
    hide EffectiveRate;
    FloorOfIff(forOwn, o.owned * discounted, GB);
    FloorOfIff(forShared, o.foreign * rate, GB);
    assert o.owned * discounted >= 0 && o.foreign * rate >= 0;
  }

  lemma TermsAreTheRow(b: Books, m: Admin, r: Ratio, t: Terms)
    requires TermsOf(b, m, r, t)
    ensures t.rate == RateFor(b, m) > 0 && t.bytes == m.usersUsage - Watermark(m) >= 0
    ensures t.discounted == EffectiveRate(t.rate, m.discountPercent) >= 0
    ensures UnbilledSplit(m, r) == UsageSplit(t.own, t.bytes - t.own) && 0 <= t.own <= t.bytes
  {
    hide FloorOf, OwnShare, OwnershipSplit, EffectiveRate;
    OwnIsTheSplit(t.bytes, r, t.own);
    DiscountedIsTheRate(t.rate, m.discountPercent, t.discounted);
  }

  lemma CoverLeaves(own: int, shared: int, prepaid: int)
    requires own >= 0 && shared >= 0
    ensures var p := Max(0, prepaid);
            ApplyPrepaidCover(UsageSplit(own, shared), prepaid).0
              == UsageSplit(LeftOver(own, LeftOver(p, shared)), LeftOver(shared, p))
    ensures var p := Max(0, prepaid); LeftOver(own, LeftOver(p, shared)) >= 0 && LeftOver(shared, p) >= 0
  {
  }

  /** What a bill costs, from the row alone. */
  lemma CostIsInTheTerms(b: Books, m: Admin, r: Ratio, t: Terms)
    requires TermsOf(b, m, r, t)
    ensures QuoteFor(m, RateFor(b, m), r).cost == t.Cost() && t.forOwn >= 0 && t.forShared >= 0
  {
    hide FloorOf, Priced, OwnShare, OwnershipSplit, EffectiveRate, UnbilledSplit, RateFor, Worth, ComputeCharge, Watermark;
    TermsAreTheRow(b, m, r, t);
    var shared := t.bytes - t.own;
    var o := ApplyPrepaidCover(UnbilledSplit(m, r), m.prepaid).0;
    CoverLeaves(t.own, shared, m.prepaid);
    hide ApplyPrepaidCover, LeftOver;
    ChargeIs(o, t.rate, m.discountPercent, t.discounted, t.forOwn, t.forShared);
  }

  datatype BillOutcome =
    | NotBilled             // sudo, or no rate
    | NothingNew            // no unbilled traffic
    | CoveredByPackage      // prepaid traffic took it, with at most a waived remainder
    | TooSmall              // unbilled bytes worth less than a unit stay unbilled
    | Held                  // the wallet cannot pay
    | Charged

  function Outcome(b: Books, a: AdminId, q: Quote): BillOutcome
    requires a in b.admins
  {
    if b.admins[a].isSudo || q.rate <= 0 then NotBilled
    else if q.cost <= 0 then
      if q.covered > 0 then CoveredByPackage else if q.split.Total() <= 0 then NothingNew else TooSmall
    else if Balance(b, a) < q.cost then Held
    else Charged
  }

  /** The settlement a bill that advances the watermark records. */
  function SettlementOf(a: AdminId, m: Admin, q: Quote): Settlement {
    Settlement(a, Watermark(m), m.usersUsage,
               if q.cost > 0 then q.overflow.Total() else 0, q.covered, if q.cost > 0 then 0 else q.overflow.Total(),
               q.cost, q.worth, q.rate, m.discountPercent)
  }

  function WithAdmin(b: Books, a: AdminId, m: Admin): Books { b.(admins := b.admins[a := m]) }

  function Settled(m: Admin, covered: int): Admin {
    m.(checkpoint := Some(m.usersUsage), prepaid := if covered > 0 then Max(0, m.prepaid - covered) else m.prepaid)
  }

  function Billed(b: Books, a: AdminId, q: Quote): Books
    requires a in b.admins
  {
    var m := b.admins[a];
    var rewound := m.(checkpoint := Some(Watermark(m)));
    var settled := WithAdmin(b, a, Settled(m, q.covered)).(settlements := b.settlements + [SettlementOf(a, m, q)]);
    match Outcome(b, a, q)
    case NotBilled => b
    case NothingNew => WithAdmin(b, a, m.(checkpoint := Some(m.usersUsage)))
    case CoveredByPackage => settled
    case TooSmall => WithAdmin(b, a, rewound)
    case Held => WithWallet(WithAdmin(b, a, rewound), a)
    case Charged => AfterTransaction(WithWallet(settled, a), Transaction(a, -q.cost, UsageCharge, OtherRef), false)
  }

  function BillResult(b: Books, a: AdminId, r: Ratio): BillOutcome
    requires a in b.admins
  {
    Outcome(b, a, QuoteFor(b.admins[a], RateFor(b, b.admins[a]), r))
  }

  function AfterBill(b: Books, a: AdminId, r: Ratio): Books
    requires a in b.admins
  {
    Billed(b, a, QuoteFor(b.admins[a], RateFor(b, b.admins[a]), r))
  }

  /** A cost that is positive and covered by the wallet is entered as a debit, the wallet falls by it
      (one that is its own parent gets its commission back), and the watermark moves to the present; one the wallet cannot pay leaves every wallet, the prepaid traffic and the
      watermark; and a bill that costs nothing moves no money. */
  ghost predicate Takes(b: Books, c: Books, a: AdminId, bytes: int, cost: int)
    requires a in b.admins
  {
    && a in c.admins
    && (0 < cost <= Balance(b, a) ==>
          && |b.ledger| < |c.ledger| && c.ledger[|b.ledger|] == Transaction(a, -cost, UsageCharge, OtherRef)
          && (b.admins[a].parent != Some(a) ==> Balance(c, a) == Balance(b, a) - cost)
          && c.admins[a].checkpoint == Some(b.admins[a].usersUsage))
    && (cost > 0 && cost > Balance(b, a) ==>
          c.admins[a].prepaid == b.admins[a].prepaid && c.admins[a].checkpoint == Some(b.admins[a].usersUsage - bytes))
    && (cost == 0 || cost > Balance(b, a) ==> c.ledger == b.ledger && forall x :: Balance(c, x) == Balance(b, x))
  }

  /** A bill takes what the reseller's row makes its traffic cost. */
  lemma BillTakesItsTerms(b: Books, a: AdminId, r: Ratio, t: Terms)
    requires a in b.admins && !b.admins[a].isSudo && TermsOf(b, b.admins[a], r, t)
    ensures Takes(b, AfterBill(b, a, r), a, t.bytes, t.Cost())
  {
    hide TermsOf, QuoteFor, AfterTransaction, Billed, RateFor, UnbilledSplit, EffectiveRate;
    var m := b.admins[a];
    CostIsInTheTerms(b, m, r, t);
    TermsAreTheRow(b, m, r, t);
    var q := QuoteFor(m, RateFor(b, m), r);
    assert q.rate == RateFor(b, m) by { QuoteRate(m, RateFor(b, m), r); }
    BilledTables(b, a, q);
    BilledBalances(b, a, q);
  }

  lemma QuoteRate(m: Admin, rate: int, r: Ratio)
    ensures QuoteFor(m, rate, r).rate == rate
  {
    hide UnbilledSplit, ApplyPrepaidCover, ComputeCharge, Worth;
  }

  lemma BilledBalances(b: Books, a: AdminId, q: Quote)
    requires a in b.admins
    ensures var c := Billed(b, a, q);
            && (Outcome(b, a, q) == Charged ==>
                  && |b.ledger| < |c.ledger| && c.ledger[|b.ledger|] == Transaction(a, -q.cost, UsageCharge, OtherRef)
                  && (b.admins[a].parent != Some(a) ==> Balance(c, a) == Balance(b, a) - q.cost))
            && (Outcome(b, a, q) != Charged ==> forall x :: Balance(c, x) == Balance(b, x))
  {
    hide AfterTransaction;
    var m := b.admins[a];
    if Outcome(b, a, q) == Charged {
      var settled := WithAdmin(b, a, Settled(m, q.covered)).(settlements := b.settlements + [SettlementOf(a, m, q)]);
      TransactionMovesWallets(WithWallet(settled, a), Transaction(a, -q.cost, UsageCharge, OtherRef), false, a);
      TransactionWritesItsLine(WithWallet(settled, a), Transaction(a, -q.cost, UsageCharge, OtherRef), false);
    }
  }

  /** All traffic on the reseller's own nodes costs the discounted rate, all of it on shared nodes
      the full one, rounded down, whatever the discount. */
  lemma OwnNodesCostLess(b: Books, a: AdminId, r: Ratio, discounted: int, units: int)
    requires a in b.admins && !b.admins[a].isSudo
    requires var m := b.admins[a];
             && m.checkpoint.Some? && m.checkpoint.value <= m.usersUsage && m.prepaid <= 0
             && m.usageRate.Some? && m.usageRate.value > 0 && 0 <= m.discountPercent <= 100
             && FloorOf(discounted, m.usageRate.value * (100 - m.discountPercent), 100)
             && r.owned + r.foreign > 0 && (r.owned == 0 || r.foreign == 0)
             && FloorOf(units, (m.usersUsage - m.checkpoint.value) * (if r.foreign == 0 then discounted else m.usageRate.value), GB)
             && 0 < units <= Balance(b, a)
    ensures var c := AfterBill(b, a, r);
            && |b.ledger| < |c.ledger| && c.ledger[|b.ledger|] == Transaction(a, -units, UsageCharge, OtherRef)
            && (b.admins[a].parent != Some(a) ==> Balance(c, a) == Balance(b, a) - units)
  {
    hide AfterBill;
    var m := b.admins[a];
    var bytes := m.usersUsage - m.checkpoint.value;
    var own := if r.foreign == 0 then bytes else 0;
    if r.foreign == 0 { FloorOfIff(bytes, bytes * r.owned, r.owned); }
    BillTakesItsTerms(b, a, r, Terms(bytes, m.usageRate.value, discounted, own,
                                     if r.foreign == 0 then units else 0, if r.foreign == 0 then 0 else units));
  }

  // ------------------------------------------------------------------ the other two tests

  datatype Summary = Summary(split: UsageSplit, covered: int, estimated: int, balance: int, blocked: bool)

  function UsageSummary(b: Books, a: AdminId, r: Ratio): Summary
    requires a in b.admins
  {
    var m := b.admins[a];
    var rate := RateFor(b, m);
    var split := UnbilledSplit(m, r);
    var (overflow, covered) := ApplyPrepaidCover(split, m.prepaid);
    var estimated := if !m.isSudo && rate > 0 then ComputeCharge(overflow, rate, m.discountPercent) else 0;
    Summary(split, if !m.isSudo then covered else 0, estimated, Balance(b, a),
            !m.isSudo && rate > 0 && estimated > 0 && Balance(b, a) < estimated)
  }

  /** What a reseller's unbilled traffic would cost, as the unpaid sweep works it out. */
  function Owes(b: Books, a: AdminId, r: Ratio): int {
    if a !in b.admins || b.admins[a].isSudo || RateFor(b, b.admins[a]) <= 0 then 0
    else
      var m := b.admins[a];
      var split := UnbilledSplit(m, r);
      if split.Total() <= 0 then 0
      else ComputeCharge(ApplyPrepaidCover(split, m.prepaid).0, RateFor(b, m), m.discountPercent)
  }

  /** The per-reseller test inside the unpaid sweep. */
  predicate Unpaid(b: Books, a: AdminId, r: Ratio) { Owes(b, a, r) > 0 && Balance(b, a) < Owes(b, a, r) }

  /** The sweep, the bill and the summary agree on who cannot pay, for every state of the books. */
  lemma InsolvencyTestsAgree(b: Books, a: AdminId, r: Ratio)
    requires a in b.admins
    ensures Unpaid(b, a, r) <==> BillResult(b, a, r) == Held
    ensures Unpaid(b, a, r) <==> UsageSummary(b, a, r).blocked
    ensures UsageSummary(b, a, r).estimated == Owes(b, a, r)
    ensures UsageSummary(b, a, r).covered
         == if b.admins[a].isSudo then 0 else QuoteFor(b.admins[a], RateFor(b, b.admins[a]), r).covered
  {
    hide ComputeCharge, Worth, OwnershipSplit, EffectiveRate, ApplyPrepaidCover;
    var m := b.admins[a];
    if RateFor(b, m) > 0 { QuoteIsOk(m, RateFor(b, m), r); }
  }

  lemma TransactionKeepsTables(b: Books, tx: Transaction, skip: bool)
    ensures var c := AfterTransaction(b, tx, skip); c == b.(ledger := c.ledger, wallets := c.wallets)
    decreases if skip then 0 else 2
  {
    var c := Entered(WithWallet(b, tx.admin), tx);
    var due := CommissionFor(c, tx.admin, tx.amount);
    if !skip && due.Some? {
      TransactionKeepsTables(c, Transaction(due.value.0, due.value.1, CommissionCredit, tx.ref), true);
    }
  }

  /** What a bill leaves of the tables other than the wallets and the ledger. */
  lemma BilledTables(b: Books, a: AdminId, q: Quote)
    requires a in b.admins
    ensures var c := Billed(b, a, q);
            var m := b.admins[a];
            var o := Outcome(b, a, q);
            var advances := o == CoveredByPackage || o == Charged;
            && c == b.(admins := c.admins, settlements := c.settlements, ledger := c.ledger, wallets := c.wallets)
            && a in c.admins && c.admins == b.admins[a := c.admins[a]]
            && c.settlements == b.settlements + (if advances then [SettlementOf(a, m, q)] else [])
            && c.admins[a] == (if o == NotBilled then m else if advances then Settled(m, q.covered)
                               else if o == NothingNew then m.(checkpoint := Some(m.usersUsage))
                               else m.(checkpoint := Some(Watermark(m))))
            && (o != Charged ==> c.ledger == b.ledger)
  {
    hide AfterTransaction;
    var m := b.admins[a];
    if Outcome(b, a, q) == Charged {
      var settled := WithAdmin(b, a, Settled(m, q.covered)).(settlements := b.settlements + [SettlementOf(a, m, q)]);
      TransactionKeepsTables(WithWallet(settled, a), Transaction(a, -q.cost, UsageCharge, OtherRef), false);
    }
    assert b.admins == b.admins[a := m];
  }

  /** A reseller whose bill was not held is not blocked afterwards. */
  lemma SettledIsNotBlocked(b: Books, a: AdminId, r: Ratio)
    requires a in b.admins && BillResult(b, a, r) != Held
    ensures !Unpaid(AfterBill(b, a, r), a, r)
  {
    hide ComputeCharge, Worth, OwnershipSplit, EffectiveRate, ApplyPrepaidCover;
    var m := b.admins[a];
    var q := QuoteFor(m, RateFor(b, m), r);
    BilledTables(b, a, q);
    var c := Billed(b, a, q);
    var n := c.admins[a];
    if RateFor(b, m) > 0 && !m.isSudo {
      QuoteIsOk(n, RateFor(c, n), r);
      var p := QuoteFor(n, RateFor(c, n), r);
      if Outcome(b, a, q) == TooSmall {
        assert Watermark(n) == Watermark(m);
        assert p == q;
      } else {
        assert Watermark(n) == n.usersUsage;
        assert p.cost == 0;
      }
    }
  }

  // ------------------------------------------------------------------ conservation

  /** Recorded traffic; only a recorded reseller has a counter. */
  function AfterTraffic(b: Books, a: AdminId, bytes: nat): Books {
    if a !in b.admins then b
    else
      WithAdmin(b, a, b.admins[a].(usersUsage := b.admins[a].usersUsage + bytes))
        .(metered := b.metered[a := Metered(b, a) + bytes])
  }

  /** An operator resets a reseller's usage counter to a lower value. */
  function AfterUsageReset(b: Books, a: AdminId, usage: int): Books {
    if a !in b.admins || usage > b.admins[a].usersUsage then b
    else WithAdmin(b, a, b.admins[a].(usersUsage := usage))
  }

  function Metered(b: Books, a: AdminId): int { if a in b.metered then b.metered[a] else 0 }

  function Unbilled(m: Admin): int { m.usersUsage - Watermark(m) }

  /** Bytes a reseller's watermark has moved over. */
  function MovedBytes(ss: seq<Settlement>, a: AdminId): int {
    if ss == [] then 0
    else
      var s := ss[|ss| - 1];
      MovedBytes(ss[..|ss| - 1], a) + (if s.admin == a then s.high - s.low else 0)
  }

  /** Units debited, charges posted, bytes charged, and what those bytes were worth. */
  datatype Totals = Totals(units: int, charges: int, bytes: int, worth: int)

  function ChargedTotals(ss: seq<Settlement>, a: AdminId): Totals {
    if ss == [] then Totals(0, 0, 0, 0)
    else
      var s, t := ss[|ss| - 1], ChargedTotals(ss[..|ss| - 1], a);
      if s.admin != a || s.units <= 0 then t
      else Totals(t.units + s.units, t.charges + 1, t.bytes + s.charged, t.worth + s.worth)
  }

  /** Every byte of a settlement is charged, covered or waived, in one way only; the units are the
      worth rounded down by less than two; and only bytes worth less than two units are waived. */
  ghost predicate SettlementOk(s: Settlement) {
    && s.high - s.low == s.charged + s.covered + s.waived
    && s.charged >= 0 && s.covered >= 0 && s.waived >= 0
    && s.units >= 0 && s.units * GB <= s.worth < (s.units + 2) * GB
    && (s.units == 0 ==> s.charged == 0) && (s.units > 0 ==> s.waived == 0)
    && (s.discountPercent == 0 ==> s.worth == s.rate * (s.charged + s.waived))
  }

  ghost predicate SettlementsOk(ss: seq<Settlement>) {
    forall k :: 0 <= k < |ss| ==> SettlementOk(ss[k])
  }

  lemma NewSettlementOk(b: Books, a: AdminId, r: Ratio)
    requires a in b.admins && BillResult(b, a, r) in {CoveredByPackage, Charged}
    ensures SettlementOk(SettlementOf(a, b.admins[a], QuoteFor(b.admins[a], RateFor(b, b.admins[a]), r)))
  {
    hide ComputeCharge, Worth, OwnershipSplit, EffectiveRate, ApplyPrepaidCover, UnbilledSplit;
    QuoteIsOk(b.admins[a], RateFor(b, b.admins[a]), r);
  }

  lemma BillKeepsSettlementsOk(b: Books, a: AdminId, r: Ratio)
    requires a in b.admins && SettlementsOk(b.settlements)
    ensures SettlementsOk(AfterBill(b, a, r).settlements)
  {
    hide QuoteFor;
    BilledTables(b, a, QuoteFor(b.admins[a], RateFor(b, b.admins[a]), r));
    if BillResult(b, a, r) in {CoveredByPackage, Charged} { NewSettlementOk(b, a, r); }
  }

  lemma MovedSnoc(ss: seq<Settlement>, s: Settlement, a: AdminId)
    ensures MovedBytes(ss + [s], a) == MovedBytes(ss, a) + if s.admin == a then s.high - s.low else 0
    ensures CoveredBytes(ss + [s], a) == CoveredBytes(ss, a) + if s.admin == a then s.covered else 0
  {
    assert (ss + [s])[..|ss|] == ss;
  }

  /** Traffic recorded but neither moved over by the watermark nor waiting to be billed. */
  function Slack(b: Books, a: AdminId): int
    requires a in b.admins
  {
    Metered(b, a) - MovedBytes(b.settlements, a) - Unbilled(b.admins[a])
  }

  lemma BilledKeepsSlack(b: Books, a: AdminId, q: Quote, x: AdminId)
    requires a in b.admins && x in b.admins
    requires Outcome(b, a, q) == NothingNew ==> Unbilled(b.admins[a]) == 0
    ensures x in Billed(b, a, q).admins && Slack(Billed(b, a, q), x) == Slack(b, x)
  {
    hide Billed, MovedBytes, Outcome;
    BilledTables(b, a, q);
    var c := Billed(b, a, q);
    BilledMoves(b.settlements, c.settlements, SettlementOf(a, b.admins[a], q), x);
    assert Metered(c, x) == Metered(b, x);
    if x == a {
      assert Unbilled(c.admins[a]) == Unbilled(b.admins[a]) || Unbilled(c.admins[a]) == 0;
    }
  }

  lemma BilledMoves(before: seq<Settlement>, after: seq<Settlement>, s: Settlement, x: AdminId)
    ensures after == before + [s] ==> MovedBytes(after, x) == MovedBytes(before, x) + if s.admin == x then s.high - s.low else 0
    ensures after == before + [] ==> MovedBytes(after, x) == MovedBytes(before, x)
  {
    MovedSnoc(before, s, x);
    assert before + [] == before;
  }

  /** A bill takes each byte it moves over from the unbilled ones: nothing is counted twice. */
  lemma BillKeepsSlack(b: Books, a: AdminId, r: Ratio, x: AdminId)
    requires a in b.admins && x in b.admins
    ensures x in AfterBill(b, a, r).admins && Slack(AfterBill(b, a, r), x) == Slack(b, x)
  {
    hide QuoteFor, Billed;
    if BillResult(b, a, r) == NothingNew { NothingNewMeansBilled(b, a, r); }
    BilledKeepsSlack(b, a, QuoteFor(b.admins[a], RateFor(b, b.admins[a]), r), x);
  }

  lemma NothingNewMeansBilled(b: Books, a: AdminId, r: Ratio)
    requires a in b.admins && BillResult(b, a, r) == NothingNew
    ensures Unbilled(b.admins[a]) == 0
  {
    hide ComputeCharge, Worth, OwnershipSplit, EffectiveRate, ApplyPrepaidCover, UnbilledSplit;
    QuoteIsOk(b.admins[a], RateFor(b, b.admins[a]), r);
  }

  /** Traffic and counter resets never make billed and waiting bytes exceed the recorded ones. */
  lemma TrafficKeepsSlack(b: Books, a: AdminId, n: nat, usage: int, x: AdminId)
    requires x in b.admins
    ensures Slack(b, x) <= Slack(AfterTraffic(b, a, n), x)
    ensures Slack(b, x) <= Slack(AfterUsageReset(b, a, usage), x)
    ensures b.admins[x].checkpoint.Some? && b.admins[x].checkpoint.value <= b.admins[x].usersUsage ==>
              Slack(b, x) == Slack(AfterTraffic(b, a, n), x)
  {
  }

  lemma GbIs()
    ensures GB == 1073741824
  {
  }

  /** Over all charges of a reseller: the units debited never exceed what the charged bytes were
      worth, and fall short of it by less than two units a charge. */
  lemma {:induction false} ChargesAreFair(ss: seq<Settlement>, a: AdminId)
    requires SettlementsOk(ss)
    ensures var t := ChargedTotals(ss, a);
            && t.charges >= 0
            && t.units * GB <= t.worth <= (t.units + 2 * t.charges) * GB
            && (t.charges > 0 ==> t.worth < (t.units + 2 * t.charges) * GB)
  {
    if ss != [] {
      GbIs();
      ChargesAreFair(ss[..|ss| - 1], a);
      assert SettlementOk(ss[|ss| - 1]);
    }
  }

  /** The reseller's settlements were all made at this rate and without discount. */
  ghost predicate AtRate(ss: seq<Settlement>, a: AdminId, rate: int) {
    forall k :: 0 <= k < |ss| && ss[k].admin == a ==> ss[k].rate == rate && ss[k].discountPercent == 0
  }

  /** At a fixed rate and no discount the charged bytes' worth is rate times bytes. */
  lemma {:induction false} WorthAtFixedRate(ss: seq<Settlement>, a: AdminId, rate: int)
    requires SettlementsOk(ss) && AtRate(ss, a, rate)
    ensures ChargedTotals(ss, a).worth == rate * ChargedTotals(ss, a).bytes
  {
    if ss != [] {
      var s := ss[|ss| - 1];
      WorthAtFixedRate(ss[..|ss| - 1], a, rate);
      assert SettlementOk(s);
      if s.admin == a && s.units > 0 {
        var t := ChargedTotals(ss[..|ss| - 1], a);
        assert s.worth == rate * s.charged;
        assert rate * (t.bytes + s.charged) == rate * t.bytes + rate * s.charged;
      }
    }
  }

  lemma BillKeepsPrepaid(b: Books, a: AdminId, r: Ratio)
    requires a in b.admins && PrepaidMatches(b)
    ensures PrepaidMatches(AfterBill(b, a, r))
  {
    hide QuoteFor;
    var m := b.admins[a];
    var q := QuoteFor(m, RateFor(b, m), r);
    BilledTables(b, a, q);
    var c := AfterBill(b, a, r);
    if Outcome(b, a, q) in {CoveredByPackage, Charged} { CoverFitsPrepaid(b, a, r); }
    forall x | x in c.admins
      ensures c.admins[x].prepaid == GrantedBytes(c.purchases, x) - CoveredBytes(c.settlements, x) >= 0
    {
      assert x in b.admins;
      MovedSnoc(b.settlements, SettlementOf(a, m, q), x);
      assert b.settlements + [] == b.settlements;
    }
  }

  lemma CoverFitsPrepaid(b: Books, a: AdminId, r: Ratio)
    requires a in b.admins && BillResult(b, a, r) in {CoveredByPackage, Charged}
    ensures 0 <= QuoteFor(b.admins[a], RateFor(b, b.admins[a]), r).covered <= Max(0, b.admins[a].prepaid)
  {
    hide ComputeCharge, Worth, OwnershipSplit, EffectiveRate, ApplyPrepaidCover, UnbilledSplit;
    QuoteIsOk(b.admins[a], RateFor(b, b.admins[a]), r);
  }

  /** A usage bill keeps wallets equal to the ledger and never overdraws. */
  lemma BillKeepsWallets(b: Books, a: AdminId, r: Ratio)
    requires a in b.admins && WalletsMatchLedger(b)
    ensures WalletsMatchLedger(AfterBill(b, a, r))
    ensures Solvent(b) ==> Solvent(AfterBill(b, a, r))
  {
    hide QuoteFor;
    var q := QuoteFor(b.admins[a], RateFor(b, b.admins[a]), r);
    BilledKeepsWallets(b, a, q);
  }

  lemma BilledKeepsWallets(b: Books, a: AdminId, q: Quote)
    requires a in b.admins && WalletsMatchLedger(b)
    ensures WalletsMatchLedger(Billed(b, a, q))
    ensures Solvent(b) ==> Solvent(Billed(b, a, q))
  {
    var m := b.admins[a];
    var c := Billed(b, a, q);
    if Outcome(b, a, q) == Charged {
      var settled := WithAdmin(b, a, Settled(m, q.covered)).(settlements := b.settlements + [SettlementOf(a, m, q)]);
      var w := WithWallet(settled, a);
      forall x ensures Balance(w, x) == Balance(b, x) {}
      var tx := Transaction(a, -q.cost, UsageCharge, OtherRef);
      TransactionKeepsMatch(w, tx, false);
      if Solvent(b) {
        assert Solvent(w);
        AffordableDebitKeepsSolvent(w, tx, false);
      }
    } else {
      forall x ensures Balance(c, x) == Balance(b, x) && c.ledger == b.ledger {}
    }
  }

  // ------------------------------------------------------------------ the operations on a session

  datatype Node = Node(tenant: Option<nat>, owner: Option<AdminId>)

  datatype UsageRow = UsageRow(used: int, node: Option<Node>)

  predicate OwnedBy(n: Node, a: AdminId, tenant: Option<nat>) {
    (tenant.Some? && n.tenant == tenant) || n.owner == Some(a)
  }

  function PositiveBytes(rows: seq<UsageRow>): int {
    if rows == [] then 0 else PositiveBytes(rows[..|rows| - 1]) + Max(0, rows[|rows| - 1].used)
  }

  function OwnedBytes(rows: seq<UsageRow>, a: AdminId, tenant: Option<nat>): int {
    if rows == [] then 0
    else
      var x := rows[|rows| - 1];
      OwnedBytes(rows[..|rows| - 1], a, tenant) +
      (if x.node.Some? && OwnedBy(x.node.value, a, tenant) then Max(0, x.used) else 0)
  }

  /** The bytes of one row that are billed as the reseller's own: those used on a node of its tenant,
      or on one it owns itself. */
  ghost predicate RowIsOwn(x: UsageRow, a: AdminId, tenant: Option<nat>) {
    x.node.Some? && (x.node.value.owner == Some(a) || (tenant.Some? && x.node.value.tenant == tenant))
  }

  /** If all rows are on the reseller's own nodes, all their bytes are its own, and if none is, none. */
  lemma {:induction false} OwnedBytesMean(rows: seq<UsageRow>, a: AdminId, tenant: Option<nat>)
    ensures 0 <= OwnedBytes(rows, a, tenant) <= PositiveBytes(rows)
    ensures (forall k :: 0 <= k < |rows| ==> RowIsOwn(rows[k], a, tenant)) ==> OwnedBytes(rows, a, tenant) == PositiveBytes(rows)
    ensures (forall k :: 0 <= k < |rows| ==> !RowIsOwn(rows[k], a, tenant)) ==> OwnedBytes(rows, a, tenant) == 0
  {
    if rows != [] {
      var n := |rows| - 1;
      OwnedBytesMean(rows[..n], a, tenant);
      assert (forall k :: 0 <= k < |rows| ==> RowIsOwn(rows[k], a, tenant)) ==> RowIsOwn(rows[n], a, tenant);
      assert (forall k :: 0 <= k < |rows| ==> !RowIsOwn(rows[k], a, tenant)) ==> !RowIsOwn(rows[n], a, tenant);
    }
  }

  /** Rows without a node count as shared, so every positive row is billed once. */
  method AggregateUsage(rows: seq<UsageRow>, a: AdminId, tenant: Option<nat>) returns (r: Ratio)
    ensures r.owned == OwnedBytes(rows, a, tenant) && r.owned + r.foreign == PositiveBytes(rows)
  {
    var owned: nat, foreign: nat := 0, 0;
    for i := 0 to |rows|
      invariant owned == OwnedBytes(rows[..i], a, tenant) && owned + foreign == PositiveBytes(rows[..i])
    {
      assert rows[..i + 1][..i] == rows[..i];
      if rows[i].used <= 0 { continue; }
      if rows[i].node.Some? && OwnedBy(rows[i].node.value, a, tenant) {
        owned := owned + rows[i].used;
      } else {
        foreign := foreign + rows[i].used;
      }
    }
    assert rows[..|rows|] == rows;
    r := Ratio(owned, foreign);
  }

  method BillResellerUsage(db: Session, a: AdminId, r: Ratio) returns (o: BillOutcome)
    requires a in db.admins
    modifies db`admins, db`settlements, db`wallets, db`ledger
    ensures o == BillResult(old(db.Contents()), a, r)
    ensures db.Contents() == AfterBill(old(db.Contents()), a, r)
  {
    hide ComputeCharge, Worth, OwnershipSplit, EffectiveRate, ApplyPrepaidCover, UnbilledSplit;
    var m := db.admins[a];
    if m.isSudo { return NotBilled; }
    var rate := RateFor(db.Contents(), m);
    if rate <= 0 { return NotBilled; }
    var split := UnbilledSplit(m, r);
    var (overflow, covered) := ApplyPrepaidCover(split, m.prepaid);
    var cost := ComputeCharge(overflow, rate, m.discountPercent);
    ghost var q := QuoteFor(m, rate, r);
    ghost var s := SettlementOf(a, m, q);
    if cost <= 0 {
      if covered > 0 {
        db.admins := db.admins[a := m.(prepaid := Max(0, m.prepaid - covered), checkpoint := Some(m.usersUsage))];
        db.settlements := db.settlements +
          [Settlement(a, Watermark(m), m.usersUsage, 0, covered, overflow.Total(), cost,
                      Worth(overflow, rate, m.discountPercent), rate, m.discountPercent)];
        return CoveredByPackage;
      }
      if split.Total() <= 0 {
        db.admins := db.admins[a := m.(checkpoint := Some(m.usersUsage))];
        return NothingNew;
      }
      db.admins := db.admins[a := m.(checkpoint := Some(Watermark(m)))];
      return TooSmall;
    }
    var balance := GetOrCreateWallet(db, a);
    if balance < cost {
      db.admins := db.admins[a := m.(checkpoint := Some(Watermark(m)))];
      return Held;
    }
    var n := m.(checkpoint := Some(m.usersUsage));
    if covered > 0 { n := n.(prepaid := Max(0, m.prepaid - covered)); }
    db.admins := db.admins[a := n];
    db.settlements := db.settlements +
      [Settlement(a, Watermark(m), m.usersUsage, overflow.Total(), covered, 0, cost,
                  Worth(overflow, rate, m.discountPercent), rate, m.discountPercent)];
    AddTransaction(db, Transaction(a, -cost, UsageCharge, OtherRef), false);
    return Charged;
  }

  function RatioOf(rs: map<AdminId, Ratio>, a: AdminId): Ratio { if a in rs then rs[a] else Ratio(0, 0) }

  function UnpaidSet(b: Books, rs: map<AdminId, Ratio>): set<AdminId> {
    set a | a in b.admins && Unpaid(b, a, RatioOf(rs, a))
  }

  /** Looking at a reseller's usage creates a missing checkpoint. */
  function Looked(b: Books, a: AdminId): Admin
    requires a in b.admins
  {
    var m := b.admins[a];
    if m.isSudo || RateFor(b, m) <= 0 then m
    else if m.checkpoint == None then m.(checkpoint := Some(m.usersUsage)) else m
  }

  function Owing(b: Books, rs: map<AdminId, Ratio>): set<AdminId> {
    set a | a in b.admins && Owes(b, a, RatioOf(rs, a)) > 0
  }

  /** The sweep, as far as the resellers in `done`: it creates missing checkpoints, and missing
      wallets of resellers that owe something. */
  function PartlySwept(b: Books, rs: map<AdminId, Ratio>, done: set<AdminId>): Books {
    b.(admins := map a | a in b.admins :: if a in done then Looked(b, a) else b.admins[a],
       wallets := map a | a in b.wallets.Keys + Owing(b, rs) * done :: Balance(b, a))
  }

  function Swept(b: Books, rs: map<AdminId, Ratio>): Books { PartlySwept(b, rs, b.admins.Keys) }

  /** The sweep changes no balance and no one's standing: a reseller is unpaid after it exactly when
      before. */
  lemma SweepKeepsStanding(b: Books, rs: map<AdminId, Ratio>, a: AdminId, r: Ratio)
    ensures Balance(Swept(b, rs), a) == Balance(b, a)
    ensures Unpaid(Swept(b, rs), a, r) <==> Unpaid(b, a, r)
    ensures a in b.admins ==> Slack(Swept(b, rs), a) == Slack(b, a)
    ensures PrepaidMatches(b) ==> PrepaidMatches(Swept(b, rs))
  {
    hide ComputeCharge, OwnershipSplit, EffectiveRate, ApplyPrepaidCover, Owing;
    if a in b.admins { assert Watermark(Looked(b, a)) == Watermark(b.admins[a]); }
  }

  /** The sweep starts the checkpoint of a billed reseller that has none at its present usage, and
      changes no other row. */
  lemma SweepStartsCheckpoints(b: Books, rs: map<AdminId, Ratio>, a: AdminId)
    requires a in b.admins
    ensures var m, n := b.admins[a], Swept(b, rs).admins[a];
            if !m.isSudo && RateFor(b, m) > 0 && m.checkpoint == None then n == m.(checkpoint := Some(m.usersUsage)) else n == m
  {
    hide Owing;
  }

  /** The resellers whose unbilled charge exceeds their wallet, found one by one. */
  method ResellersWithUnpaidUsage(db: Session, billingOn: bool, rs: map<AdminId, Ratio>) returns (blocked: set<AdminId>)
    modifies db`admins, db`wallets
    ensures blocked == if billingOn then UnpaidSet(old(db.Contents()), rs) else {}
    ensures db.Contents() == if billingOn then Swept(old(db.Contents()), rs) else old(db.Contents())
  {
    hide PartlySwept, RowSwept, Unpaid, Owes, Looked, Balance, UnpaidAmong, UnpaidSet;
    if !billingOn { return {}; }
    ghost var b := db.Contents();
    SweepNone(b, rs);
    blocked := {};
    var rows := set a | a in db.admins && !db.admins[a].isSudo;
    var todo := rows;
    assert rows - todo == {};
    while todo != {}
      invariant todo <= rows && db.Contents() == PartlySwept(b, rs, rows - todo)
      invariant blocked == UnpaidAmong(b, rs, rows - todo)
      decreases |todo|
    {
      var a :| a in todo;
      SweepOne(b, rs, rows - todo, a);
      UnpaidOneMore(b, rs, rows - todo, a);
      var unpaid := SweepRow(db, a, RatioOf(rs, a));
      if unpaid { blocked := blocked + {a}; }
      assert rows - (todo - {a}) == (rows - todo) + {a};
      todo := todo - {a};
    }
    assert rows - todo == rows;
    SweepSudo(b, rs, rows);
  }

  function UnpaidAmong(b: Books, rs: map<AdminId, Ratio>, done: set<AdminId>): set<AdminId> {
    set a | a in done && Unpaid(b, a, RatioOf(rs, a))
  }

  lemma UnpaidOneMore(b: Books, rs: map<AdminId, Ratio>, done: set<AdminId>, a: AdminId)
    ensures UnpaidAmong(b, rs, done + {a})
         == UnpaidAmong(b, rs, done) + if Unpaid(b, a, RatioOf(rs, a)) then {a} else {}
  {
    hide Unpaid;
  }

  lemma SweepNone(b: Books, rs: map<AdminId, Ratio>)
    ensures PartlySwept(b, rs, {}) == b && UnpaidAmong(b, rs, {}) == {}
  {
    assert PartlySwept(b, rs, {}).admins == b.admins;
    assert PartlySwept(b, rs, {}).wallets == b.wallets;
  }

  function RowSwept(c: Books, a: AdminId, r: Ratio): Books
    requires a in c.admins
  {
    c.(admins := c.admins[a := Looked(c, a)],
       wallets := if Owes(c, a, r) > 0 then c.wallets[a := Balance(c, a)] else c.wallets)
  }

  /** One more reseller: it stands as before the sweep, and only its own rows change. */
  lemma SweepOne(b: Books, rs: map<AdminId, Ratio>, done: set<AdminId>, a: AdminId)
    requires a in b.admins && a !in done
    ensures var c, r := PartlySwept(b, rs, done), RatioOf(rs, a);
            && a in c.admins && c.admins[a] == b.admins[a]
            && Owes(c, a, r) == Owes(b, a, r) && Balance(c, a) == Balance(b, a) && Unpaid(c, a, r) == Unpaid(b, a, r)
            && PartlySwept(b, rs, done + {a}) == RowSwept(c, a, r)
  {
    hide Owes, Looked, Balance, Owing, PartlySwept;
    var c := PartlySwept(b, rs, done);
    SweepStanding(b, rs, done, a);
    OwesIsLocal(b, c, a, RatioOf(rs, a));
    SweepOneAdmin(b, rs, done, a);
    SweepOneWallet(b, rs, done, a);
  }

  lemma SweepStanding(b: Books, rs: map<AdminId, Ratio>, done: set<AdminId>, a: AdminId)
    requires a in b.admins && a !in done
    ensures var c := PartlySwept(b, rs, done);
            && a in c.admins && c.admins[a] == b.admins[a] && Balance(c, a) == Balance(b, a)
            && c == b.(admins := c.admins, wallets := c.wallets)
  {
    hide Owes, Looked;
  }

  lemma SweepOneAdmin(b: Books, rs: map<AdminId, Ratio>, done: set<AdminId>, a: AdminId)
    requires a in b.admins && a !in done
    ensures PartlySwept(b, rs, done + {a}).admins == PartlySwept(b, rs, done).admins[a := Looked(b, a)]
    ensures var d := PartlySwept(b, rs, done + {a}); d == b.(admins := d.admins, wallets := d.wallets)
  {
    hide Owes, Looked, Balance, Owing;
  }

  lemma SweepOneWallet(b: Books, rs: map<AdminId, Ratio>, done: set<AdminId>, a: AdminId)
    requires a in b.admins && a !in done
    ensures var w := PartlySwept(b, rs, done).wallets;
            PartlySwept(b, rs, done + {a}).wallets == if Owes(b, a, RatioOf(rs, a)) > 0 then w[a := Balance(b, a)] else w
  {
    hide Owes, Looked, Balance;
    assert a in Owing(b, rs) <==> Owes(b, a, RatioOf(rs, a)) > 0;
    assert Owing(b, rs) * (done + {a}) == Owing(b, rs) * done + (if a in Owing(b, rs) then {a} else {});
  }

  /** The sudo admins, which the loop passes over, would not change and owe nothing. */
  lemma SweepSudo(b: Books, rs: map<AdminId, Ratio>, rows: set<AdminId>)
    requires rows == set a | a in b.admins && !b.admins[a].isSudo
    ensures PartlySwept(b, rs, rows) == Swept(b, rs)
    ensures UnpaidAmong(b, rs, rows) == UnpaidSet(b, rs)
  {
    hide ComputeCharge, UnbilledSplit, ApplyPrepaidCover;
    assert PartlySwept(b, rs, rows).admins == Swept(b, rs).admins;
    assert Owing(b, rs) * rows == Owing(b, rs) * b.admins.Keys;
  }

  method SweepRow(db: Session, a: AdminId, r: Ratio) returns (unpaid: bool)
    requires a in db.admins && !db.admins[a].isSudo
    modifies db`admins, db`wallets
    ensures unpaid == Unpaid(old(db.Contents()), a, r)
    ensures db.Contents() == RowSwept(old(db.Contents()), a, r)
  {
    hide Owes, Looked;
    var cost := OwedBy(db, a, r);
    LookAt(db, a);
    if cost <= 0 { return false; }
    var balance := GetOrCreateWallet(db, a);
    return balance < cost;
  }

  lemma OwesIsLocal(b: Books, c: Books, a: AdminId, r: Ratio)
    requires a in b.admins && a in c.admins && c.admins[a] == b.admins[a] && c.platformRate == b.platformRate
    ensures Owes(c, a, r) == Owes(b, a, r) && Looked(c, a) == Looked(b, a)
  {
    hide ComputeCharge, UnbilledSplit, ApplyPrepaidCover;
  }

  method LookAt(db: Session, a: AdminId)
    requires a in db.admins && !db.admins[a].isSudo
    modifies db`admins
    ensures db.admins == old(db.admins)[a := Looked(old(db.Contents()), a)]
  {
    var m := db.admins[a];
    if RateFor(db.Contents(), m) > 0 && m.checkpoint == None {
      db.admins := db.admins[a := m.(checkpoint := Some(m.usersUsage))];
    } else {
      assert db.admins == db.admins[a := m];
    }
  }

  method OwedBy(db: Session, a: AdminId, r: Ratio) returns (cost: int)
    requires a in db.admins && !db.admins[a].isSudo
    ensures cost == Owes(db.Contents(), a, r)
  {
    var m := db.admins[a];
    var rate := RateFor(db.Contents(), m);
    if rate <= 0 { return 0; }
    var split := UnbilledSplit(m, r);
    if split.Total() <= 0 { return 0; }
    var (overflow, _) := ApplyPrepaidCover(split, m.prepaid);
    cost := ComputeCharge(overflow, rate, m.discountPercent);
  }
}
