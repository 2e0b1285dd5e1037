/** Wholesale tariffs: matching a package to the catalogue, and charging a reseller's edit of an
    account at most once for the same period. */
module ResellerTariffs {
  import opened Base

  const DAY: int := 86400
  const GRACE: int := 3600

  datatype Tariff = Tariff(id: nat, price: int, dataLimit: Option<int>, duration: Option<int>, enabled: bool)

  function NormalizeDataLimit(n: Option<int>): Option<int> {
    if n.Some? && n.value > 0 then n else None
  }

  function Positive(n: Option<int>): Option<int> {
    if n.Some? && n.value > 0 then n else None
  }

  function Abs(n: int): nat { if n < 0 then -n else n }

  // ------------------------------------------------------------------ snapping a duration

  /** The first element of the smallest key, as a stable sort would put it in front. */
  function First<T>(xs: seq<T>, before: (T, T) -> bool): T
    requires xs != []
  {
    if |xs| == 1 then xs[0]
    else
      var best := First(xs[..|xs| - 1], before);
      if before(xs[|xs| - 1], best) then xs[|xs| - 1] else best
  }

  function NearestDay(want: int): (int, int) -> bool {
    (d: int, e: int) => Abs(d - want) < Abs(e - want) || (Abs(d - want) == Abs(e - want) && d < e)
  }

  function OnSale(days: seq<int>): (r: seq<int>)
    ensures forall d :: d in r <==> d in days && d > 0
  {
    Filter((d: int) => d > 0, days)
  }

  function Near(want: int, tolerance: int, days: seq<int>): (r: seq<int>)
    ensures forall d :: d in r <==> d in days && Abs(d - want) <= tolerance
  {
    Filter((d: int) => Abs(d - want) <= tolerance, days)
  }

  function SnapDuration(want: int, days: seq<int>, tolerance: int): int
    requires want > 0
  {
    var catalog := OnSale(days);
    if want in catalog then want
    else
      var near := Near(want, tolerance, catalog);
      if near == [] then want else First(near, NearestDay(want))
  }

  // ------------------------------------------------------------------ matching a tariff

  function SameVolume(rows: seq<Tariff>, dataLimit: Option<int>): (r: seq<Tariff>)
    ensures forall t :: t in r <==>
              t in rows && t.enabled && NormalizeDataLimit(t.dataLimit) == NormalizeDataLimit(dataLimit)
  {
    Filter((t: Tariff) => t.enabled && NormalizeDataLimit(t.dataLimit) == NormalizeDataLimit(dataLimit), rows)
  }

  function OfDuration(rows: seq<Tariff>, duration: Option<int>): (r: seq<Tariff>)
    ensures forall t :: t in r <==> t in rows && t.duration == duration
  {
    Filter((t: Tariff) => t.duration == duration, rows)
  }

  function Days(rows: seq<Tariff>): seq<int> {
    if rows == [] then []
    else
      var t := rows[|rows| - 1];
      Days(rows[..|rows| - 1]) + (if t.duration.Some? && t.duration.value > 0 then [t.duration.value] else [])
  }

  predicate Cheaper(t: Tariff, u: Tariff) { t.price < u.price || (t.price == u.price && t.id < u.id) }

  function Cheapest(rows: seq<Tariff>): Option<Tariff> {
    if rows == [] then None else Some(First(rows, Cheaper))
  }

  function MatchTariff(rows: seq<Tariff>, dataLimit: Option<int>, duration: Option<int>): Option<Tariff> {
    var volume := SameVolume(rows, dataLimit);
    var want := Positive(duration);
    if want.Some? then
      var snapped := SnapDuration(want.value, Days(volume), 1);
      Cheapest(OfDuration(volume, Some(snapped)))
    else Cheapest(OfDuration(volume, None))
  }

  // What a match should be, said without the catalogue's order or the snapping.

  ghost predicate Eligible(t: Tariff, dataLimit: Option<int>, duration: Option<int>) {
    && t.enabled && NormalizeDataLimit(t.dataLimit) == NormalizeDataLimit(dataLimit)
    && match Positive(duration)
       case None => t.duration == None
       case Some(want) => t.duration.Some? && t.duration.value > 0 && Abs(t.duration.value - want) <= 1
  }

  predicate NoDearer(t: Tariff, u: Tariff) { t.price < u.price || (t.price == u.price && t.id <= u.id) }

  /** The nearest duration first, then the shorter one, then the lower price, then the lower id. */
  ghost predicate AtLeastAsGood(t: Tariff, u: Tariff, duration: Option<int>) {
    match Positive(duration)
    case None => NoDearer(t, u)
    case Some(want) =>
      && t.duration.Some? && u.duration.Some?
      && var x, y := Abs(t.duration.value - want), Abs(u.duration.value - want);
         if t.duration == u.duration then NoDearer(t, u) else x < y || (x == y && t.duration.value < u.duration.value)
  }

  ghost predicate IsBest(rows: seq<Tariff>, dataLimit: Option<int>, duration: Option<int>, t: Tariff) {
    && t in rows && Eligible(t, dataLimit, duration)
    && forall u :: u in rows && Eligible(u, dataLimit, duration) ==> AtLeastAsGood(t, u, duration)
  }

  lemma {:induction false} DaysMembers(rows: seq<Tariff>, d: int)
    ensures d in Days(rows) <==> d > 0 && exists t :: t in rows && t.duration == Some(d)
    decreases |rows|
  {
    if rows != [] {
      DaysMembers(rows[..|rows| - 1], d);
      assert rows == rows[..|rows| - 1] + [rows[|rows| - 1]];
    }
  }

  lemma {:induction false} CheapestIsFirst(rows: seq<Tariff>)
    requires rows != []
    ensures var t := First(rows, Cheaper);
            t in rows && forall u :: u in rows ==> !Cheaper(u, t)
    decreases |rows|
  {
    if |rows| > 1 {
      CheapestIsFirst(rows[..|rows| - 1]);
      assert rows == rows[..|rows| - 1] + [rows[|rows| - 1]];
    }
  }

  lemma {:induction false} NearestIsFirst(days: seq<int>, want: int)
    requires days != []
    ensures var d := First(days, NearestDay(want));
            d in days && forall e :: e in days ==> e == d || NearestDay(want)(d, e)
    decreases |days|
  {
    if |days| > 1 {
      NearestIsFirst(days[..|days| - 1], want);
      assert days == days[..|days| - 1] + [days[|days| - 1]];
    }
  }

  /** Snapping stays at the wanted length when the catalogue has it or has nothing within a day,
      and otherwise goes to the neighbouring day on sale, the shorter one first. */
  lemma SnapGoesToTheNearest(want: int, days: seq<int>)
    requires want > 0
    ensures var sold := set d | d in days && d > 0;
            SnapDuration(want, days, 1) ==
              if want in sold || (want - 1 !in sold && want + 1 !in sold) then want
              else if want - 1 in sold then want - 1
              else want + 1
  {
    hide OnSale, Near;
    var near := Near(want, 1, OnSale(days));
    if near != [] { NearestIsFirst(near, want); }
    assert want - 1 in near <==> want > 1 && want - 1 in days;
    assert want + 1 in near <==> want + 1 in days;
    assert near != [] ==> near[0] in near;
  }

  lemma CheapestMatch(rows: seq<Tariff>)
    ensures Cheapest(rows) == None <==> rows == []
    ensures Cheapest(rows).Some? ==>
              Cheapest(rows).value in rows && forall u :: u in rows ==> !Cheaper(u, Cheapest(rows).value)
  {
    if rows != [] { CheapestIsFirst(rows); }
  }

  /** The match is the best eligible row, and there is none exactly when no row is eligible. */
  lemma MatchIsBest(rows: seq<Tariff>, dataLimit: Option<int>, duration: Option<int>)
    ensures var r := MatchTariff(rows, dataLimit, duration);
            match r
            case None => forall t :: t in rows ==> !Eligible(t, dataLimit, duration)
            case Some(t) => IsBest(rows, dataLimit, duration, t)
  {
    var volume := SameVolume(rows, dataLimit);
    var want := Positive(duration);
    if want == None {
      CheapestMatch(OfDuration(volume, None));
    } else {
      TimedMatchIsBest(rows, dataLimit, duration, volume, want.value);
    }
  }

  /** A duration on sale within a day of the wanted one: the snapped duration is on sale too, and
      at least as near. */
  lemma SnapBeats(want: int, days: seq<int>, d: int)
    requires want > 0 && d in days && d > 0 && Abs(d - want) <= 1
    ensures var s := SnapDuration(want, days, 1);
            s in days && s > 0 && Abs(s - want) <= 1 && (d == s || NearestDay(want)(s, d))
  {
    hide SnapDuration;
    SnapGoesToTheNearest(want, days);
    var sold := set e | e in days && e > 0;
    assert d in sold && d in {want - 1, want, want + 1};
  }

  lemma TimedMatchIsBest(rows: seq<Tariff>, dataLimit: Option<int>, duration: Option<int>, volume: seq<Tariff>, want: int)
    requires volume == SameVolume(rows, dataLimit) && Positive(duration) == Some(want)
    ensures match MatchTariff(rows, dataLimit, duration)
            case None => forall t :: t in rows ==> !Eligible(t, dataLimit, duration)
            case Some(t) => IsBest(rows, dataLimit, duration, t)
  {
    hide SameVolume, OfDuration, SnapDuration, Cheapest, Days, Eligible, AtLeastAsGood;
    var snapped := SnapDuration(want, Days(volume), 1);
    var exact := OfDuration(volume, Some(snapped));
    CheapestMatch(exact);
    if exact == [] {
      forall t | t in rows ensures !Eligible(t, dataLimit, duration) { NoneEligible(rows, dataLimit, duration, want, t); }
    } else {
      var t := Cheapest(exact).value;
      ExactIsEligible(rows, dataLimit, duration, want, t);
      forall u | u in rows && Eligible(u, dataLimit, duration) ensures AtLeastAsGood(t, u, duration) {
        CheapestBeats(rows, dataLimit, duration, want, t, u);
      }
    }
  }

  lemma EligibleDays(rows: seq<Tariff>, dataLimit: Option<int>, duration: Option<int>, want: int, t: Tariff)
    requires t in rows && Positive(duration) == Some(want) && Eligible(t, dataLimit, duration)
    ensures t in SameVolume(rows, dataLimit) && t.duration.Some?
    ensures var d := t.duration.value; d in Days(SameVolume(rows, dataLimit)) && d > 0 && Abs(d - want) <= 1
  {
    hide SameVolume;
    DaysMembers(SameVolume(rows, dataLimit), t.duration.value);
  }

  lemma NoneEligible(rows: seq<Tariff>, dataLimit: Option<int>, duration: Option<int>, want: int, t: Tariff)
    requires t in rows && Positive(duration) == Some(want)
    requires var volume := SameVolume(rows, dataLimit); OfDuration(volume, Some(SnapDuration(want, Days(volume), 1))) == []
    ensures !Eligible(t, dataLimit, duration)
  {
    hide SameVolume, SnapDuration, Days, OfDuration;
    var volume := SameVolume(rows, dataLimit);
    var snapped := SnapDuration(want, Days(volume), 1);
    if Eligible(t, dataLimit, duration) {
      EligibleDays(rows, dataLimit, duration, want, t);
      SnapBeats(want, Days(volume), t.duration.value);
      DaysMembers(volume, snapped);
    }
  }

  lemma ExactIsEligible(rows: seq<Tariff>, dataLimit: Option<int>, duration: Option<int>, want: int, t: Tariff)
    requires Positive(duration) == Some(want) && t in SameVolume(rows, dataLimit)
    requires t.duration == Some(SnapDuration(want, Days(SameVolume(rows, dataLimit)), 1))
    ensures t in rows && Eligible(t, dataLimit, duration)
  {
    hide SameVolume, SnapDuration;
    SnapGoesToTheNearest(want, Days(SameVolume(rows, dataLimit)));
  }

  lemma CheapestBeats(rows: seq<Tariff>, dataLimit: Option<int>, duration: Option<int>, want: int, t: Tariff, u: Tariff)
    requires Positive(duration) == Some(want) && u in rows && Eligible(u, dataLimit, duration)
    requires var volume := SameVolume(rows, dataLimit);
             var snapped := SnapDuration(want, Days(volume), 1);
             t.duration == Some(snapped) && forall v :: v in OfDuration(volume, Some(snapped)) ==> !Cheaper(v, t)
    ensures AtLeastAsGood(t, u, duration)
  {
    hide SameVolume, SnapDuration, Days, OfDuration, Eligible;
    EligibleDays(rows, dataLimit, duration, want, u);
    SnapBeats(want, Days(SameVolume(rows, dataLimit)), u.duration.value);
    assert u.duration == t.duration ==> !Cheaper(u, t);
  }

  /** The catalogue's order does not matter: with distinct ids the match depends only on which
      rows there are. */
  lemma MatchIgnoresOrder(rows: seq<Tariff>, other: seq<Tariff>, dataLimit: Option<int>, duration: Option<int>)
    requires forall t :: t in rows <==> t in other
    requires forall t, u :: t in rows && u in rows && t.id == u.id ==> t == u
    ensures MatchTariff(rows, dataLimit, duration) == MatchTariff(other, dataLimit, duration)
  {
    hide MatchTariff;
    MatchIsBest(rows, dataLimit, duration);
    MatchIsBest(other, dataLimit, duration);
    var a, b := MatchTariff(rows, dataLimit, duration), MatchTariff(other, dataLimit, duration);
    if a.Some? && b.Some? {
      assert AtLeastAsGood(a.value, b.value, duration) && AtLeastAsGood(b.value, a.value, duration);
    }
  }

  // ------------------------------------------------------------------ limit locks

  /** `n` is the smallest positive value any part gives the key. */
  ghost predicate IsStrictest(parts: seq<map<string, Option<int>>>, key: string, n: int) {
    && n > 0 && (exists i :: 0 <= i < |parts| && key in parts[i] && parts[i][key] == Some(n))
    && forall i :: 0 <= i < |parts| && key in parts[i] && parts[i][key].Some? && parts[i][key].value > 0 ==>
         n <= parts[i][key].value
  }

  ghost predicate Unlocked(parts: seq<map<string, Option<int>>>, key: string) {
    forall i :: 0 <= i < |parts| && key in parts[i] ==> Positive(parts[i][key]) == None
  }

  function Tightened(lock: Option<int>, value: Option<int>): Option<int> {
    if Positive(value) == None then lock
    else if lock == None || value.value < lock.value then value else lock
  }

  function LockOf(locks: map<string, int>, key: string): Option<int> {
    if key in locks then Some(locks[key]) else None
  }

  ghost predicate Merged(parts: seq<map<string, Option<int>>>, locks: map<string, int>) {
    forall key :: if key in locks then IsStrictest(parts, key, locks[key]) else Unlocked(parts, key)
  }

  /** One part, key by key, in whatever order its entries come. */
  method MergePart(locks: map<string, int>, part: map<string, Option<int>>) returns (out: map<string, int>)
    ensures forall key :: LockOf(out, key) ==
              if key in part then Tightened(LockOf(locks, key), part[key]) else LockOf(locks, key)
  {
    out := locks;
    var todo := part.Keys;
    while todo != {}
      invariant todo <= part.Keys
      invariant forall key ::
        LockOf(out, key) == if key in part && key !in todo then Tightened(LockOf(locks, key), part[key]) else LockOf(locks, key)
      decreases |todo|
    {
      var key :| key in todo;
      todo := todo - {key};
      var value := part[key];
      if value == None || value.value <= 0 { continue; }
      if key !in out || value.value < out[key] { out := out[key := value.value]; }
    }
  }

  lemma MergedSnoc(parts: seq<map<string, Option<int>>>, part: map<string, Option<int>>,
                   locks: map<string, int>, out: map<string, int>, key: string)
    requires if key in locks then IsStrictest(parts, key, locks[key]) else Unlocked(parts, key)
    requires LockOf(out, key) == if key in part then Tightened(LockOf(locks, key), part[key]) else LockOf(locks, key)
    ensures if key in out then IsStrictest(parts + [part], key, out[key]) else Unlocked(parts + [part], key)
  {
    var all := parts + [part];
    assert all[|parts|] == part && forall i :: 0 <= i < |parts| ==> all[i] == parts[i];
    if key in out && key in locks && out[key] == locks[key] {
      var i :| 0 <= i < |parts| && key in parts[i] && parts[i][key] == Some(locks[key]);
      assert key in all[i] && all[i][key] == Some(out[key]);
    }
  }

  /** Whatever the order of the parts, each lock is the strictest positive value given for it, and
      a key is unlocked exactly when no part gives one. */
  method MergeLimitLocks(parts: seq<map<string, Option<int>>>) returns (locks: map<string, int>)
    ensures Merged(parts, locks)
  {
    locks := map[];
    for i := 0 to |parts|
      invariant Merged(parts[..i], locks)
    {
      var out := MergePart(locks, parts[i]);
      assert parts[..i + 1] == parts[..i] + [parts[i]];
      forall key ensures if key in out then IsStrictest(parts[..i + 1], key, out[key]) else Unlocked(parts[..i + 1], key) {
        MergedSnoc(parts[..i], parts[i], locks, out, key);
      }
      locks := out;
    }
    assert parts[..|parts|] == parts;
  }

  // ------------------------------------------------------------------ editing an account

  /** Seconds as whole days, halves going to the even number. */
  function RoundDays(secs: int): int {
    var q, r := secs / DAY, secs % DAY;
    if 2 * r < DAY || (2 * r == DAY && q % 2 == 0) then q else q + 1
  }

  function DurationFromExpire(now: int, expire: Option<int>): Option<int> {
    var e := Positive(expire);
    if e == None || e.value - now <= 0 then None else Positive(Some(RoundDays(e.value - now)))
  }

  /** The package lengths an edit of the expiry may stand for. */
  function Candidates(now: int, oldExpire: Option<int>, newExpire: Option<int>): seq<int> {
    var o, n := Positive(oldExpire), Positive(newExpire);
    if n == None then []
    else
      var fromNow := RoundDays(n.value - now);
      var first := if fromNow > 0 then [fromNow] else [];
      if o.Some? && o.value > now && n.value > o.value + GRACE then
        var added := RoundDays(n.value - o.value);
        if added > 0 && added !in first then first + [added] else first
      else first
  }

  function FirstHit(rows: seq<Tariff>, dataLimit: Option<int>, days: seq<int>): Option<Tariff> {
    if days == [] then None
    else
      var hit := MatchTariff(rows, dataLimit, Some(days[0]));
      if hit.Some? then hit else FirstHit(rows, dataLimit, days[1..])
  }

  function MatchForModify(rows: seq<Tariff>, now: int, dataLimit: Option<int>,
                          oldExpire: Option<int>, newExpire: Option<int>): Option<Tariff> {
    var hit := FirstHit(rows, dataLimit, Candidates(now, oldExpire, newExpire));
    var o, n := Positive(oldExpire), Positive(newExpire);
    if hit.Some? then hit
    else if o == n || (o.Some? && n.Some? && Abs(n.value - o.value) <= GRACE)
    then MatchTariff(rows, dataLimit, DurationFromExpire(now, newExpire))
    else None
  }

  predicate IsUnlimited(dataLimit: Option<int>) { NormalizeDataLimit(dataLimit) == None }

  predicate SomeEnabled(rows: seq<Tariff>) { exists t :: t in rows && t.enabled }

  predicate SomeUnlimited(rows: seq<Tariff>) { exists t :: t in rows && t.enabled && IsUnlimited(t.dataLimit) }

  predicate SomeVolume(rows: seq<Tariff>) { exists t :: t in rows && t.enabled && !IsUnlimited(t.dataLimit) }

  predicate SomeTimedUnlimited(rows: seq<Tariff>) {
    exists t :: t in rows && t.enabled && IsUnlimited(t.dataLimit) && Positive(t.duration).Some?
  }

  predicate ShapeAllowed(rows: seq<Tariff>, dataLimit: Option<int>, duration: Option<int>) {
    || !SomeEnabled(rows)
    || MatchTariff(rows, dataLimit, duration).Some?
    || (if IsUnlimited(dataLimit) then !SomeUnlimited(rows) else !SomeVolume(rows))
  }

  predicate ModifyShapeAllowed(rows: seq<Tariff>, now: int, oldData: Option<int>, oldExpire: Option<int>,
                               nextData: Option<int>, nextExpire: Option<int>) {
    var dataChanged := NormalizeDataLimit(oldData) != NormalizeDataLimit(nextData);
    var candidates := Candidates(now, oldExpire, nextExpire);
    if !SomeEnabled(rows) then true
    else if Positive(oldExpire).Some? && Positive(nextExpire) == None && IsUnlimited(nextData) && SomeTimedUnlimited(rows)
    then false
    else if candidates == [] && !dataChanged then true
    else if MatchForModify(rows, now, nextData, oldExpire, nextExpire).Some? then true
    else if candidates != [] && IsUnlimited(nextData) && SomeUnlimited(rows) then false
    else !dataChanged || ShapeAllowed(rows, nextData, DurationFromExpire(now, nextExpire))
  }

  /** An account row: its limits, and the tariff and expiry it was last charged for. */
  datatype Account = Account(dataLimit: Option<int>, expire: Option<int>, paidId: Option<nat>, paidExpire: Option<int>)

  /** A field of an edit: left out, set to null, or given. */
  datatype Field = Omitted | Null | Given(value: int)

  /** A reseller's edit, with what the panel finds when it handles it: the time, the catalogue,
      this reseller's price overrides and its wallet. */
  datatype Edit = Edit(
    now: int, dataLimit: Field, expire: Field,
    rows: seq<Tariff>, overrides: map<nat, int>, balance: int, billingOn: bool)

  /** What the charge looks at; a null field reads as no limit. */
  function Wanted(f: Field, current: Option<int>): Option<int> {
    match f case Omitted => current case Null => None case Given(v) => Some(v)
  }

  /** What the row becomes; a null field changes nothing. */
  function Stored(f: Field, current: Option<int>): Option<int> {
    match f case Given(v) => if v == 0 then None else Some(v) case _ => current
  }

  predicate Extends(now: int, oldExpire: Option<int>, newExpire: Option<int>) {
    var o, n := Positive(oldExpire), Positive(newExpire);
    n.Some? && (o == None || o.value <= now || n.value > o.value + GRACE)
  }

  predicate ShouldCharge(a: Account, t: Tariff, e: Edit) {
    var nextData, nextExpire := Wanted(e.dataLimit, a.dataLimit), Wanted(e.expire, a.expire);
    var extended := Extends(e.now, a.expire, nextExpire);
    var dataChanged := NormalizeDataLimit(a.dataLimit) != NormalizeDataLimit(nextData);
    if a.paidId == None then extended || dataChanged
    else if extended then
      Positive(a.paidExpire) == None || Positive(nextExpire).value > Positive(a.paidExpire).value + GRACE
    else dataChanged && a.paidId != Some(t.id)
  }

  datatype Decision = Refused | TooPoor | Free | Charge(tariff: Tariff, price: int)

  function Price(e: Edit, t: Tariff): int { if t.id in e.overrides then e.overrides[t.id] else t.price }

  function Decide(a: Account, e: Edit): Decision {
    var nextData, nextExpire := Wanted(e.dataLimit, a.dataLimit), Wanted(e.expire, a.expire);
    if !e.billingOn then Free
    else if !ModifyShapeAllowed(e.rows, e.now, a.dataLimit, a.expire, nextData, nextExpire) then Refused
    else
      match MatchForModify(e.rows, e.now, nextData, a.expire, nextExpire)
      case None => Free
      case Some(t) =>
        if !ShouldCharge(a, t, e) then Free
        else if Price(e, t) > 0 && e.balance < Price(e, t) then TooPoor
        else Charge(t, Price(e, t))
  }

  /** The row is updated first; the mark then records its new expiry. */
  function AfterEdit(a: Account, e: Edit): Account {
    var b := a.(dataLimit := Stored(e.dataLimit, a.dataLimit), expire := Stored(e.expire, a.expire));
    match Decide(a, e)
    case Refused => a
    case TooPoor => a
    case Free => b
    case Charge(t, _) => b.(paidId := Some(t.id), paidExpire := Positive(b.expire))
  }

  lemma {:induction false} HitIsOnSale(rows: seq<Tariff>, dataLimit: Option<int>, days: seq<int>)
    ensures var hit := FirstHit(rows, dataLimit, days);
            hit.Some? ==> hit.value in rows && hit.value.enabled &&
                          NormalizeDataLimit(hit.value.dataLimit) == NormalizeDataLimit(dataLimit)
    decreases |days|
  {
    if days != [] {
      MatchIsBest(rows, dataLimit, Some(days[0]));
      hide MatchTariff;
      HitIsOnSale(rows, dataLimit, days[1..]);
    }
  }

  /** What an edit is charged: an enabled tariff of the catalogue for the volume asked for, at the
      reseller's own price if there is one and the catalogue's otherwise, and never more than the
      wallet holds; only a price above the balance is turned down as too poor. */
  lemma ChargeIsAtTheListedPrice(a: Account, e: Edit)
    ensures var d := Decide(a, e);
            d.Charge? ==>
              && e.billingOn && d.tariff in e.rows && d.tariff.enabled
              && NormalizeDataLimit(d.tariff.dataLimit) == NormalizeDataLimit(Wanted(e.dataLimit, a.dataLimit))
              && d.price == (if d.tariff.id in e.overrides then e.overrides[d.tariff.id] else d.tariff.price)
              && (d.price <= 0 || d.price <= e.balance)
    ensures Decide(a, e).TooPoor? ==>
              exists t :: t in e.rows && t.enabled &&
                          e.balance < if t.id in e.overrides then e.overrides[t.id] else t.price
  {
    var nextData, nextExpire := Wanted(e.dataLimit, a.dataLimit), Wanted(e.expire, a.expire);
    HitIsOnSale(e.rows, nextData, Candidates(e.now, a.expire, nextExpire));
    MatchIsBest(e.rows, nextData, DurationFromExpire(e.now, nextExpire));
    hide MatchTariff, FirstHit, ModifyShapeAllowed, ShouldCharge, Candidates;
  }

  /** `d` is the number of days nearest to `secs`, the even one of two equally near. */
  ghost predicate NearestDays(secs: int, d: int) {
    var off := Abs(secs - 86400 * d);
    2 * off < 86400 || (2 * off == 86400 && d % 2 == 0)
  }

  lemma RoundDaysIff(secs: int, d: int)
    ensures NearestDays(secs, d) <==> d == RoundDays(secs)
  {
    var q, r := secs / DAY, secs % DAY;
    assert secs == q * DAY + r && 0 <= r < DAY;
    assert secs - 86400 * d == 86400 * (q - d) + r;
  }

  /** The lengths an edit may stand for: from now to the new expiry, and, when a running period is
      pushed out by more than an hour, the time added; in days, and only whole positive ones. */
  lemma CandidatesAre(now: int, oldExpire: Option<int>, newExpire: Option<int>, d: int)
    ensures d in Candidates(now, oldExpire, newExpire) <==>
            && d > 0 && newExpire.Some? && newExpire.value > 0
            && (|| NearestDays(newExpire.value - now, d)
                || (&& oldExpire.Some? && oldExpire.value > 0 && oldExpire.value > now
                    && newExpire.value > oldExpire.value + 3600 && NearestDays(newExpire.value - oldExpire.value, d)))
  {
    hide NearestDays, RoundDays;
    if newExpire.Some? {
      RoundDaysIff(newExpire.value - now, d);
      if oldExpire.Some? { RoundDaysIff(newExpire.value - oldExpire.value, d); }
    }
  }

  /** An account that paid for a tariff is charged for the same one again only for an expiry more
      than an hour beyond the one it paid for; a change of volume alone charges only another one. */
  lemma PaidTariffIsChargedOnlyForTime(a: Account, e: Edit)
    requires a.paidId.Some? && Decide(a, e).Charge? && Decide(a, e).tariff.id == a.paidId.value
    ensures var next := Wanted(e.expire, a.expire);
            && next.Some? && next.value > 0
            && (a.paidExpire.Some? && a.paidExpire.value > 0 ==> next.value > a.paidExpire.value + 3600)
  {
    hide MatchForModify, ModifyShapeAllowed;
  }

  /** Another volume at the same expiry is charged, when a tariff for it is found that the account
      has not paid for and the wallet holds its price. */
  lemma OtherVolumeIsCharged(a: Account, e: Edit, t: Tariff)
    requires e.billingOn && Wanted(e.expire, a.expire) == a.expire
    requires NormalizeDataLimit(Wanted(e.dataLimit, a.dataLimit)) != NormalizeDataLimit(a.dataLimit)
    requires MatchForModify(e.rows, e.now, Wanted(e.dataLimit, a.dataLimit), a.expire, a.expire) == Some(t)
    requires a.paidId != Some(t.id) && Price(e, t) <= e.balance
    requires a.expire.Some? && a.expire.value > e.now
    ensures Decide(a, e) == Charge(t, Price(e, t))
  {
    hide MatchForModify;
  }

  /** Of the lengths an edit may stand for, the time from now is tried first. */
  lemma TimeFromNowComesFirst(rows: seq<Tariff>, now: int, dataLimit: Option<int>, oldExpire: Option<int>, newExpire: int, d: int)
    requires newExpire > 0 && d > 0 && NearestDays(newExpire - now, d) && MatchTariff(rows, dataLimit, Some(d)).Some?
    ensures MatchForModify(rows, now, dataLimit, oldExpire, Some(newExpire)) == MatchTariff(rows, dataLimit, Some(d))
  {
    hide MatchTariff, NearestDays, RoundDays;
    RoundDaysIff(newExpire - now, d);
    assert Candidates(now, oldExpire, Some(newExpire))[0] == d;
  }

  /** An account that has run out, or never had an expiry, is charged when it gets one beyond what it
      paid for, however short, if a tariff matches and the wallet holds its price. */
  lemma LateRenewalIsCharged(a: Account, e: Edit, t: Tariff)
    requires e.billingOn && (a.expire == None || a.expire.value <= e.now)
    requires var next := Wanted(e.expire, a.expire);
             && next.Some? && next.value > 0
             && MatchForModify(e.rows, e.now, Wanted(e.dataLimit, a.dataLimit), a.expire, next) == Some(t)
             && (a.paidId.Some? && a.paidExpire.Some? && a.paidExpire.value > 0 ==> next.value > a.paidExpire.value + 3600)
    requires Price(e, t) <= e.balance
    ensures Decide(a, e) == Charge(t, Price(e, t))
  {
    hide MatchForModify;
  }

  /** Nothing is turned away while nothing is on sale, and a shape that matches a tariff never is,
      unless it trades a timed account for an open-ended unlimited one with timed ones on sale. */
  lemma MatchedIsNotRefused(a: Account, e: Edit)
    requires Decide(a, e) == Refused
    ensures exists t :: t in e.rows && t.enabled
    ensures var nextData, nextExpire := Wanted(e.dataLimit, a.dataLimit), Wanted(e.expire, a.expire);
            || MatchForModify(e.rows, e.now, nextData, a.expire, nextExpire) == None
            || (&& a.expire.Some? && a.expire.value > 0 && (nextExpire == None || nextExpire.value <= 0)
                && (nextData == None || nextData.value <= 0)
                && exists t :: t in e.rows && t.enabled && (t.dataLimit == None || t.dataLimit.value <= 0) &&
                               t.duration.Some? && t.duration.value > 0)
  {
    hide MatchForModify;
    if SomeTimedUnlimited(e.rows) {
      var t :| t in e.rows && t.enabled && IsUnlimited(t.dataLimit) && Positive(t.duration).Some?;
      assert t.dataLimit == None || t.dataLimit.value <= 0;
    }
  }

  /** Trading a timed account for an open-ended unlimited one is turned away while timed unlimited
      tariffs are on sale. */
  lemma OpenEndedIsRefused(a: Account, e: Edit, t: Tariff)
    requires e.billingOn && t in e.rows && t.enabled && (t.dataLimit == None || t.dataLimit.value <= 0)
    requires t.duration.Some? && t.duration.value > 0 && a.expire.Some? && a.expire.value > 0
    requires e.dataLimit == Null && e.expire == Null
    ensures Decide(a, e) == Refused
  {
    hide MatchForModify;
  }

  /** Another volume is turned away while volumes are on sale and none of them fits, and is not
      while none is on sale. */
  lemma UnlistedVolumeIsRefused(a: Account, e: Edit, n: int)
    requires e.billingOn && e.dataLimit == Given(n) && n > 0 && Some(n) != a.dataLimit
    requires MatchForModify(e.rows, e.now, Some(n), a.expire, Wanted(e.expire, a.expire)) == None
    requires MatchTariff(e.rows, Some(n), DurationFromExpire(e.now, Wanted(e.expire, a.expire))) == None
    ensures Decide(a, e) == Refused <==> exists t :: t in e.rows && t.enabled && t.dataLimit.Some? && t.dataLimit.value > 0
  {
    hide MatchForModify, MatchTariff;
    if t :| t in e.rows && t.enabled && t.dataLimit.Some? && t.dataLimit.value > 0 {
      assert !IsUnlimited(t.dataLimit);
    }
    if SomeVolume(e.rows) {
      var t :| t in e.rows && t.enabled && !IsUnlimited(t.dataLimit);
      assert t.dataLimit.Some? && t.dataLimit.value > 0;
    }
  }

  /** What an edit makes of the row: nothing when it is turned away or the wallet is too low; otherwise
      each given field is set, zero meaning none, and a null or omitted one stays. */
  lemma EditedRow(a: Account, e: Edit)
    ensures var b := AfterEdit(a, e);
            && (Decide(a, e) == Refused || Decide(a, e) == TooPoor ==> b == a)
            && (Decide(a, e) == Free || Decide(a, e).Charge? ==>
                  && (e.dataLimit == Given(0) ==> b.dataLimit == None) && (e.expire == Given(0) ==> b.expire == None)
                  && (e.dataLimit.Given? && e.dataLimit.value != 0 ==> b.dataLimit == Some(e.dataLimit.value))
                  && (e.expire.Given? && e.expire.value != 0 ==> b.expire == Some(e.expire.value))
                  && (!e.dataLimit.Given? ==> b.dataLimit == a.dataLimit) && (!e.expire.Given? ==> b.expire == a.expire))
            && (Decide(a, e) == Free ==> b.paidId == a.paidId && b.paidExpire == a.paidExpire)
            && (Decide(a, e).Charge? ==>
                  b.paidId == Some(Decide(a, e).tariff.id) &&
                  b.paidExpire == if b.expire.Some? && b.expire.value > 0 then b.expire else None)
  {
    hide Decide;
  }

  /** An account's life: edits by the reseller, and changes of the expiry that come from elsewhere. */
  datatype Event = Edited(edit: Edit) | MovedElsewhere(expire: Option<int>)

  function After(a: Account, ev: Event): Account {
    match ev case Edited(e) => AfterEdit(a, e) case MovedElsewhere(x) => a.(expire := x)
  }

  function AfterAll(a: Account, evs: seq<Event>): Account
    decreases |evs|
  {
    if evs == [] then a else AfterAll(After(a, evs[0]), evs[1..])
  }

  predicate IsCharged(a: Account, ev: Event) { ev.Edited? && Decide(a, ev.edit).Charge? }

  function Charges(a: Account, evs: seq<Event>): nat
    decreases |evs|
  {
    if evs == [] then 0 else (if IsCharged(a, evs[0]) then 1 else 0) + Charges(After(a, evs[0]), evs[1..])
  }

  /** The edit asks for the volume the account already has. */
  ghost predicate KeepsVolume(a: Account, ev: Event) {
    ev.Edited? ==> NormalizeDataLimit(Wanted(ev.edit.dataLimit, a.dataLimit)) == NormalizeDataLimit(a.dataLimit)
  }

  ghost predicate VolumeFixed(a: Account, evs: seq<Event>)
    decreases |evs|
  {
    evs == [] || (KeepsVolume(a, evs[0]) && VolumeFixed(After(a, evs[0]), evs[1..]))
  }

  predicate Marked(a: Account) { a.paidId.Some? && a.paidExpire.Some? && a.paidExpire.value > 0 }

  /** One event at a fixed volume: a charge raises the charged expiry by more than the grace, and
      anything else leaves the mark alone. */
  lemma ChargeRaisesTheMark(a: Account, ev: Event)
    requires KeepsVolume(a, ev)
    ensures !IsCharged(a, ev) ==> After(a, ev).paidId == a.paidId && After(a, ev).paidExpire == a.paidExpire
    ensures IsCharged(a, ev) ==> Marked(After(a, ev)) && After(a, ev).paidExpire == Positive(After(a, ev).expire)
    ensures IsCharged(a, ev) && Marked(a) ==> After(a, ev).paidExpire.value > a.paidExpire.value + 3600
  {
    hide MatchForModify, ModifyShapeAllowed;
  }

  /** At a fixed volume every charge of every run pushes the charged expiry out by more than an
      hour, so a run that ends at a given charged expiry has at most so many charges. */
  lemma {:induction false} ChargesAreBounded(a: Account, evs: seq<Event>)
    requires Marked(a) && VolumeFixed(a, evs)
    ensures var b := AfterAll(a, evs);
            Marked(b) && b.paidExpire.value >= a.paidExpire.value + 3601 * Charges(a, evs)
    decreases |evs|
  {
    if evs != [] {
      hide After, IsCharged, KeepsVolume;
      ChargeRaisesTheMark(a, evs[0]);
      ChargesAreBounded(After(a, evs[0]), evs[1..]);
    }
  }

  /** An edit is the same request again, whatever the time, catalogue, prices and wallet are then. */
  ghost predicate SameRequest(e: Edit, again: Edit) { again.dataLimit == e.dataLimit && again.expire == e.expire }

  /** The account's current volume is what the request asks for, or the request has both fields
      null on an account with an expiry, which matches no tariff. */
  predicate Settles(a: Account, e: Edit) {
    e.dataLimit != Null || IsUnlimited(a.dataLimit) || (e.expire == Null && Positive(a.expire).Some?)
  }

  /** A catalogue of one new tariff that a request for unlimited traffic matches. */
  function Rival(a: Account, e: Edit, id: nat): Edit {
    var x := Positive(Wanted(e.expire, a.expire));
    var days := if x.Some? then Some(1) else None;
    Edit(if x.Some? then x.value - DAY else 0, e.dataLimit, e.expire, [Tariff(id, 1, None, days, true)], map[], 1, true)
  }

  lemma RivalCharges(a: Account, e: Edit, id: nat)
    requires e.dataLimit == Null && !IsUnlimited(a.dataLimit) && a.paidId.Some? && a.paidId != Some(id)
    requires Positive(Wanted(e.expire, a.expire)) == Positive(a.expire)
    ensures IsCharged(a, Edited(Rival(a, e, id)))
  {
    var f := Rival(a, e, id);
    var t := f.rows[0];
    assert t in f.rows;
    var want := Wanted(e.expire, a.expire);
    if Positive(want).Some? {
      assert RoundDays(DAY) == 1;
      assert Candidates(f.now, a.expire, want) == [1];
      assert Eligible(t, None, Some(1));
      MatchIsBest(f.rows, None, Some(1));
    } else {
      assert Candidates(f.now, a.expire, want) == [];
      assert DurationFromExpire(f.now, want) == None;
      assert Eligible(t, None, None);
      MatchIsBest(f.rows, None, None);
    }
  }

  /** Submitting a charged edit again at once, under whatever catalogue and time, never charges
      exactly when it settles the account: a null volume on a limited account leaves the volume as
      it is, so the same request is a change again. */
  lemma ImmediateResubmissionIsFreeIff(a: Account, e: Edit)
    requires IsCharged(a, Edited(e))
    ensures (forall again :: SameRequest(e, again) ==> !IsCharged(AfterEdit(a, e), Edited(again))) <==> Settles(a, e)
  {
    hide MatchTariff, FirstHit, ModifyShapeAllowed;
    var b := AfterEdit(a, e);
    if Settles(a, e) {
      forall again | SameRequest(e, again) ensures !IsCharged(b, Edited(again)) {
        if e.dataLimit == Null && e.expire == Null { NoMatchWithoutExpiry(again.rows, again.now, None, b.expire); }
      }
    } else {
      var id := b.paidId.value + 1;
      RivalCharges(b, e, id);
      assert SameRequest(e, Rival(b, e, id));
    }
  }

  lemma NoMatchWithoutExpiry(rows: seq<Tariff>, now: int, dataLimit: Option<int>, oldExpire: Option<int>)
    ensures Positive(oldExpire).Some? ==> MatchForModify(rows, now, dataLimit, oldExpire, None) == None
  {
  }

  lemma {:induction false} MarkStays(a: Account, evs: seq<Event>)
    requires a.paidId.Some? && VolumeFixed(a, evs)
    ensures AfterAll(a, evs).paidId.Some?
    decreases |evs|
  {
    if evs != [] {
      hide After, IsCharged, KeepsVolume;
      ChargeRaisesTheMark(a, evs[0]);
      MarkStays(After(a, evs[0]), evs[1..]);
    }
  }

  /** Submitting a charged edit again at any later time, after any other events that keep the
      volume, never charges: not when the period has run out, nor when the expiry was moved, nor
      under another catalogue. */
  lemma ResubmissionIsFree(a: Account, e: Edit, evs: seq<Event>, again: Edit)
    requires IsCharged(a, Edited(e)) && e.expire.Given? && SameRequest(e, again)
    requires var b := AfterEdit(a, e);
             VolumeFixed(b, evs) && KeepsVolume(AfterAll(b, evs), Edited(again))
    ensures !IsCharged(AfterAll(AfterEdit(a, e), evs), Edited(again))
  {
    hide MatchForModify, ModifyShapeAllowed;
    var b := AfterEdit(a, e);
    MarkStays(b, evs);
    if Marked(b) { ChargesAreBounded(b, evs); }
  }

  // ------------------------------------------------------------------ extensions that cost nothing

  /** What an edit wants the account to have. */
  function NextData(a: Account, e: Edit): Option<int> { Wanted(e.dataLimit, a.dataLimit) }

  function NextExpire(a: Account, e: Edit): Option<int> { Wanted(e.expire, a.expire) }

  /** The tariff the edit is matched to, if any. */
  function Matched(a: Account, e: Edit): Option<Tariff> {
    MatchForModify(e.rows, e.now, NextData(a, e), a.expire, NextExpire(a, e))
  }

  /** The edit gives the account, at its volume, an expiry beyond what was paid for. */
  predicate ExceedsPaid(a: Account, e: Edit) {
    && NormalizeDataLimit(NextData(a, e)) == NormalizeDataLimit(a.dataLimit)
    && Positive(NextExpire(a, e)).Some?
    && (a.paidId.Some? && Positive(a.paidExpire).Some? ==>
          Positive(NextExpire(a, e)).value > Positive(a.paidExpire).value + GRACE)
  }

  /** Exactly what an edit beyond the paid expiry costs. It is free when it matches a tariff but is
      at most an hour longer than a period still running; and when it matches none but either rounds
      to no day at all or is not one of unlimited traffic with such tariffs on sale. It is charged
      when it matches, counts as an extension and the wallet can pay; everything else is turned away. */
  lemma CostBeyondPaidIff(a: Account, e: Edit)
    requires e.billingOn && ExceedsPaid(a, e)
    ensures var extended, none := Extends(e.now, a.expire, NextExpire(a, e)), Candidates(e.now, a.expire, NextExpire(a, e)) == [];
            var t := Matched(a, e);
            && (Decide(a, e) == Free <==>
                  if t.Some? then !extended else none || !IsUnlimited(NextData(a, e)) || !SomeUnlimited(e.rows))
            && (Decide(a, e).Charge? <==>
                  t.Some? && extended && (Price(e, t.value) <= 0 || e.balance >= Price(e, t.value)))
            && (Decide(a, e) == Refused <==> t == None && !none && IsUnlimited(NextData(a, e)) && SomeUnlimited(e.rows))
  {
    hide MatchForModify;
    assert SomeUnlimited(e.rows) ==> SomeEnabled(e.rows);
  }

  /** A tariff is found for one of the lengths exactly when a row is eligible for one of them. */
  lemma {:induction false} FirstHitIff(rows: seq<Tariff>, dataLimit: Option<int>, days: seq<int>)
    ensures FirstHit(rows, dataLimit, days).Some? <==>
            exists d, t :: d in days && t in rows && Eligible(t, dataLimit, Some(d))
    decreases |days|
  {
    if days != [] {
      hide MatchTariff, Eligible;
      FirstHitIff(rows, dataLimit, days[1..]);
      MatchIsBest(rows, dataLimit, Some(days[0]));
      assert days == [days[0]] + days[1..];
    }
  }

  /** Half a day or less rounds to no day, so it matches no length and nothing is charged, whatever
      is on sale. */
  lemma ShortExtensionIsFree(a: Account, e: Edit)
    requires e.billingOn && ExceedsPaid(a, e) && Positive(a.expire).Some? && Positive(a.expire).value <= e.now
    requires var n := Positive(NextExpire(a, e)).value; e.now < n <= e.now + DAY / 2 && n > Positive(a.expire).value + GRACE
    ensures Decide(a, e) == Free
  {
    var n := Positive(NextExpire(a, e)).value;
    assert 0 < n - e.now <= DAY / 2 && RoundDays(n - e.now) == 0;
    assert Candidates(e.now, a.expire, NextExpire(a, e)) == [];
    CostBeyondPaidIff(a, e);
  }

  /** An hour more on a running period does not count as an extension, so a length that is on sale
      is not charged. */
  lemma HourMoreIsFree(a: Account, e: Edit)
    requires e.billingOn && ExceedsPaid(a, e) && Positive(a.expire).Some? && Positive(a.expire).value > e.now
    requires Positive(a.expire).value < Positive(NextExpire(a, e)).value <= Positive(a.expire).value + GRACE
    requires Matched(a, e).Some?
    ensures Decide(a, e) == Free
  {
    hide MatchForModify;
    CostBeyondPaidIff(a, e);
  }

  /** One more half day, asked for when the account has run out. */
  function HalfDay(rows: seq<Tariff>, balance: int, from: int): Event {
    Edited(Edit(from, Omitted, Given(from + DAY / 2), rows, map[], balance, true))
  }

  function ShortSteps(rows: seq<Tariff>, balance: int, from: int, n: nat): seq<Event>
    decreases n
  {
    if n == 0 then [] else [HalfDay(rows, balance, from)] + ShortSteps(rows, balance, from + DAY / 2, n - 1)
  }

  /** The account has an expiry, not before the one that was paid for. */
  predicate Running(a: Account) {
    a.expire.Some? && a.expire.value > 0 &&
    (a.paidId.Some? && Positive(a.paidExpire).Some? ==> Positive(a.paidExpire).value <= a.expire.value)
  }

  lemma HalfDayCostsNothing(a: Account, rows: seq<Tariff>, balance: int)
    requires Running(a)
    ensures var ev := HalfDay(rows, balance, a.expire.value);
            KeepsVolume(a, ev) && !IsCharged(a, ev) && After(a, ev) == a.(expire := Some(a.expire.value + DAY / 2))
  {
    hide Decide;
    ShortExtensionIsFree(a, HalfDay(rows, balance, a.expire.value).edit);
  }

  /** However many tariffs are on sale and whatever the wallet holds, any number of short extensions
      is free: the expiry moves on without bound while the paid one stays. */
  lemma {:induction false} ShortStepsCostNothing(a: Account, rows: seq<Tariff>, balance: int, n: nat)
    requires Running(a)
    ensures var evs := ShortSteps(rows, balance, a.expire.value, n);
            && |evs| == n && VolumeFixed(a, evs) && Charges(a, evs) == 0
            && AfterAll(a, evs) == a.(expire := Some(a.expire.value + n * (DAY / 2)))
    decreases n
  {
    hide After, IsCharged, KeepsVolume, HalfDay, VolumeFixed, Charges, AfterAll;
    if n == 0 {
      NothingHappens(a);
    } else {
      var x := a.expire.value;
      var b, ev, rest := a.(expire := Some(x + DAY / 2)), HalfDay(rows, balance, x), ShortSteps(rows, balance, x + DAY / 2, n - 1);
      HalfDayCostsNothing(a, rows, balance);
      ShortStepsCostNothing(b, rows, balance, n - 1);
      FreeStepFirst(a, ev, rest);
    }
  }

  lemma NothingHappens(a: Account)
    ensures VolumeFixed(a, []) && Charges(a, []) == 0 && AfterAll(a, []) == a
  {
  }

  lemma FreeStepFirst(a: Account, ev: Event, rest: seq<Event>)
    requires KeepsVolume(a, ev) && !IsCharged(a, ev)
    ensures var evs := [ev] + rest;
            && (VolumeFixed(a, evs) <==> VolumeFixed(After(a, ev), rest))
            && Charges(a, evs) == Charges(After(a, ev), rest) && AfterAll(a, evs) == AfterAll(After(a, ev), rest)
  {
    hide After, IsCharged, KeepsVolume;
    assert ([ev] + rest)[1..] == rest;
  }

  /** One more hour on a running account. */
  function OneHour(rows: seq<Tariff>, balance: int, now: int, expire: int): Event {
    Edited(Edit(now, Omitted, Given(expire + GRACE), rows, map[], balance, true))
  }

  /** An hour more every hour. */
  function HourlySteps(rows: seq<Tariff>, balance: int, now: int, expire: int, n: nat): seq<Event>
    decreases n
  {
    if n == 0 then []
    else [OneHour(rows, balance, now, expire)] + HourlySteps(rows, balance, now + GRACE, expire + GRACE, n - 1)
  }

  /** The time left, with the hour, is a length on sale for the account's volume. */
  predicate LeftIsOnSale(a: Account, rows: seq<Tariff>, left: int) {
    RoundDays(left) > 0 && MatchTariff(rows, a.dataLimit, Some(RoundDays(left))).Some?
  }

  lemma OneHourCostsNothing(a: Account, rows: seq<Tariff>, balance: int, now: int)
    requires Running(a) && a.expire.value > now && LeftIsOnSale(a, rows, a.expire.value + GRACE - now)
    requires a.paidId.Some? && Positive(a.paidExpire).Some? ==> Positive(a.paidExpire).value < a.expire.value
    ensures var ev := OneHour(rows, balance, now, a.expire.value);
            KeepsVolume(a, ev) && !IsCharged(a, ev) && After(a, ev) == a.(expire := Some(a.expire.value + GRACE))
  {
    hide Decide, MatchTariff, RoundDays;
    var x, e := a.expire.value, OneHour(rows, balance, now, a.expire.value).edit;
    assert Candidates(now, a.expire, Some(x + GRACE)) == [RoundDays(x + GRACE - now)];
    assert Matched(a, e).Some?;
    HourMoreIsFree(a, e);
  }

  /** The same an hour at a time, on an account whose remaining time is a length on sale: the tariff
      is matched every time and never charged. */
  lemma {:induction false} HourlyStepsCostNothing(a: Account, rows: seq<Tariff>, balance: int, now: int, n: nat)
    requires Running(a) && a.expire.value > now && LeftIsOnSale(a, rows, a.expire.value + GRACE - now)
    requires a.paidId.Some? && Positive(a.paidExpire).Some? ==> Positive(a.paidExpire).value < a.expire.value
    ensures var evs := HourlySteps(rows, balance, now, a.expire.value, n);
            && |evs| == n && VolumeFixed(a, evs) && Charges(a, evs) == 0
            && AfterAll(a, evs) == a.(expire := Some(a.expire.value + n * GRACE))
    decreases n
  {
    hide After, IsCharged, KeepsVolume, OneHour, MatchTariff, RoundDays, VolumeFixed, Charges, AfterAll;
    if n == 0 {
      NothingHappens(a);
    } else {
      var x := a.expire.value;
      var b, ev := a.(expire := Some(x + GRACE)), OneHour(rows, balance, now, x);
      OneHourCostsNothing(a, rows, balance, now);
      assert x + GRACE + GRACE - (now + GRACE) == x + GRACE - now;
      HourlyStepsCostNothing(b, rows, balance, now + GRACE, n - 1);
      FreeStepFirst(a, ev, HourlySteps(rows, balance, now + GRACE, x + GRACE, n - 1));
    }
  }

  // ------------------------------------------------------------------ the row itself

  class AccountRow {
    var dataLimit: Option<int>
    var expire: Option<int>
    var chargedId: Option<nat>
    var chargedExpire: Option<int>

    function State(): Account
      reads this
    {
      Account(dataLimit, expire, chargedId, chargedExpire)
    }

    constructor (dataLimit: Option<int>, expire: Option<int>)
      ensures State() == Account(dataLimit, expire, None, None)
    {
      this.dataLimit, this.expire, chargedId, chargedExpire := dataLimit, expire, None, None;
    }

    method UpdateUser(e: Edit)
      modifies this`dataLimit, this`expire
      ensures dataLimit == Stored(e.dataLimit, old(dataLimit)) && expire == Stored(e.expire, old(expire))
    {
      if e.dataLimit.Given? { dataLimit := if e.dataLimit.value == 0 then None else Some(e.dataLimit.value); }
      if e.expire.Given? { expire := if e.expire.value == 0 then None else Some(e.expire.value); }
    }

    method MarkTariffCharged(t: Tariff)
      modifies this`chargedId, this`chargedExpire
      ensures chargedId == Some(t.id) && chargedExpire == Positive(expire)
    {
      chargedId, chargedExpire := Some(t.id), Positive(expire);
    }

    /** The edit as the router carries it out: decide, update the row, then mark the charge. */
    method Modify(e: Edit) returns (d: Decision)
      modifies this
      ensures d == Decide(old(State()), e) && State() == AfterEdit(old(State()), e)
    {
      hide ModifyShapeAllowed, MatchForModify, ShouldCharge;
      d := Decide(State(), e);
      if d == Refused || d == TooPoor { return; }
      UpdateUser(e);
      if d.Charge? { MarkTariffCharged(d.tariff); }
    }
  }
}
