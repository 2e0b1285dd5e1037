/** The rows the commercial side of the panel works on, and the database session that holds them. */
module Tables {
  import opened Base

  type AdminId = nat
  type UserId = nat

  // ------------------------------------------------------------------ money

  datatype TxKind =
    Topup | Credit | Debit | UsageCharge | PlanSale | PortalSale | PackageSale | InvoicePayment | CommissionCredit

  datatype Reference = PaymentRef(payment: nat) | InvoiceRef(invoice: nat) | OtherRef

  datatype Transaction = Transaction(admin: AdminId, amount: int, kind: TxKind, ref: Reference)

  datatype InvoiceStatus = InvoicePending | InvoicePaid | InvoiceCanceled

  datatype Invoice = Invoice(admin: AdminId, amount: int, status: InvoiceStatus)

  /** A reseller row with its usage checkpoint; `checkpoint` is the byte watermark last billed. */
  datatype Admin = Admin(
    isSudo: bool,
    parent: Option<AdminId>,
    commissionPercent: int,
    usersUsage: int,
    checkpoint: Option<int>,
    prepaid: int,
    usageRate: Option<int>,
    discountPercent: int,
    trafficCap: Option<int>)

  datatype Purchase = Purchase(admin: AdminId, bytes: int, pricePaid: int)

  /** The record of one advance of a reseller's watermark, from `low` to `high`: how many of
      those bytes were charged, covered by prepaid traffic or waived, the units debited, and
      what the bytes not covered were worth in rate-bytes. */
  datatype Settlement = Settlement(
    admin: AdminId, low: int, high: int,
    charged: int, covered: int, waived: int,
    units: int, worth: int, rate: int, discountPercent: int)

  /** `settlements` and `metered`, the traffic ever recorded for each reseller, are history:
      no operation reads them. */
  datatype Books = Books(
    admins: map<AdminId, Admin>,
    wallets: map<AdminId, int>,
    ledger: seq<Transaction>,
    invoices: map<nat, Invoice>,
    purchases: seq<Purchase>,
    settlements: seq<Settlement>,
    metered: map<AdminId, int>,
    defaultCommission: int,
    platformRate: int)

  // ------------------------------------------------------------------ accounts

  datatype UserStatus = Active | OnHold | Limited | Expired | Disabled

  datatype User = User(
    status: UserStatus, capped: bool, admin: Option<AdminId>,
    dataLimit: Option<int>, used: int, overage: int)

  // ------------------------------------------------------------------ payments

  datatype IntentKind = TopupIntent | PortalRenew | PortalPurchase

  datatype IntentStatus = Pending | AwaitingReview | Completed | Rejected | ExpiredIntent | Failed

  datatype Provider = Card | Gateway

  /** `target` is the account to renew, or the payer of a new one; `plan` is the plan's volume. */
  datatype Intent = Intent(
    kind: IntentKind, admin: AdminId, amount: int, provider: Provider, status: IntentStatus, expiresAt: int,
    target: UserId, plan: Option<int>)

  class Session {
    var admins: map<AdminId, Admin>
    var wallets: map<AdminId, int>
    var ledger: seq<Transaction>
    var invoices: map<nat, Invoice>
    var purchases: seq<Purchase>
    var settlements: seq<Settlement>
    var metered: map<AdminId, int>
    var users: map<UserId, User>
    var intents: seq<Intent>
    const defaultCommission: int
    const platformRate: int

    function Contents(): Books
      reads this
    {
      Books(admins, wallets, ledger, invoices, purchases, settlements, metered,
            defaultCommission, platformRate)
    }

    constructor (defaultCommission: int, platformRate: int)
      ensures Contents() == Books(map[], map[], [], map[], [], [], map[], defaultCommission, platformRate)
      ensures users == map[] && intents == []
    {
      admins, wallets, ledger, invoices := map[], map[], [], map[];
      purchases, settlements, metered := [], [], map[];
      users, intents := map[], [];
      this.defaultCommission, this.platformRate := defaultCommission, platformRate;
    }
  }
}
