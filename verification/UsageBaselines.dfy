/** From cumulative byte counters to billed deltas.

    A tracker remembers the last total billed for each counter, in a cache and, when Redis is
    configured, in a store that outlives the process.  A poll computes deltas but moves no
    baseline; the baselines move when the bill has succeeded.  Against it stands the world: the
    bytes that really moved, counters that are reset, bills that fail, workers that restart. */
module UsageBaselines {
  import opened Base

  datatype Key = Key(group: string, name: string)

  /** What a collector reports for one name; anything it cannot read as two integers is skipped. */
  datatype Reading = Unreadable | Counters(rx: int, tx: int)

  function Total(r: Reading): int
    requires r.Counters?
  {
    r.rx + r.tx
  }

  datatype Report = Report(name: string, reading: Reading)

  type Transfer = seq<Report>

  datatype Tracker = Tracker(cache: map<Key, int>, store: Option<map<Key, int>>)

  function LoadLast(t: Tracker, k: Key): Option<int> {
    if k in t.cache then Some(t.cache[k])
    else if t.store.Some? && k in t.store.value then Some(t.store.value[k])
    else None
  }

  /** Loading fills the cache from the store. */
  function AfterLoad(t: Tracker, k: Key): Tracker {
    if LoadLast(t, k).Some? then t.(cache := t.cache[k := LoadLast(t, k).value]) else t
  }

  function AfterSave(t: Tracker, k: Key, total: int): Tracker {
    Tracker(t.cache[k := total], if t.store.Some? then Some(t.store.value[k := total]) else None)
  }

  /** What one reading amounts to: no baseline yet, nothing new, an implausible jump, or a delta. */
  datatype Verdict = NoBaseline | Nothing | Jump | Delta(bytes: int)

  function Difference(last: int, total: int): int {
    if total < last then total else total - last
  }

  function Assess(last: Option<int>, total: int, cap: int): Verdict {
    if last == None then NoBaseline
    else
      var delta := Difference(last.value, total);
      if delta <= 0 then Nothing else if cap != 0 && delta > cap then Jump else Delta(delta)
  }

  datatype Peek = Peek(tracker: Tracker, deltas: map<string, int>, newLast: map<Key, int>)

  function PeekOne(p: Peek, group: string, name: string, r: Reading, cap: int): Peek {
    if r.Unreadable? then p
    else
      var k, total := Key(group, name), Total(r);
      var t := AfterLoad(p.tracker, k);
      match Assess(LoadLast(p.tracker, k), total, cap)
      case Jump => Peek(AfterSave(t, k, total), p.deltas, p.newLast[k := total])
      case Delta(d) => Peek(t, p.deltas[name := d], p.newLast[k := total])
      case _ => Peek(t, p.deltas, p.newLast[k := total])
  }

  function PeekAll(p: Peek, group: string, transfer: Transfer, cap: int): Peek
    decreases |transfer|
  {
    if transfer == [] then p
    else
      var n := |transfer| - 1;
      PeekOne(PeekAll(p, group, transfer[..n], cap), group, transfer[n].name, transfer[n].reading, cap)
  }

  function AfterCommit(t: Tracker, newLast: map<Key, int>): Tracker {
    Tracker(t.cache + newLast, if t.store.Some? then Some(t.store.value + newLast) else None)
  }

  function AfterForget(t: Tracker, group: string): Tracker {
    var gone := set k | k in t.cache && k.group == group;
    Tracker(t.cache - gone, if t.store.Some? then Some(t.store.value - gone) else None)
  }

  ghost predicate DistinctNames(transfer: Transfer) {
    forall i, j :: 0 <= i < j < |transfer| ==> transfer[i].name != transfer[j].name
  }

  // ------------------------------------------------------------------ the world

  /** A counter: the bytes that have moved, how many had when it was last reset, and how often
      that happened.  It shows the bytes since the last reset. */
  datatype Meter = Meter(moved: nat, resetAt: nat, epoch: nat)

  function Shown(m: Meter): int { m.moved - m.resetAt }

  /** `b` is the meter at a later moment than `a`. */
  predicate Later(a: Meter, b: Meter) {
    && a.resetAt <= a.moved <= b.moved
    && b.resetAt <= b.moved
    && a.epoch <= b.epoch
    && (a.epoch == b.epoch ==> a.resetAt == b.resetAt)
    && (a.epoch < b.epoch ==> a.moved <= b.resetAt)
  }

  /** The account of one counter: its meter at the first and at the current baseline, the bytes
      committed between them, and whether a jump was discarded or a baseline lost on the way. */
  datatype Account = Account(first: Meter, seen: Meter, committed: int, gap: bool)

  /** A poll whose bill is still to succeed, with the meters as they were polled. */
  datatype Pending = Pending(deltas: map<string, int>, newLast: map<Key, int>, seen: map<Key, Meter>)

  datatype World = World(
    tracker: Tracker, meters: map<Key, Meter>, accounts: map<Key, Account>, pendings: map<string, Pending>)

  datatype Event =
    | Move(key: Key, bytes: nat)
    | CounterReset(key: Key)
    | Poll(group: string, transfer: Transfer, cap: int)
    | BillFails(group: string)
    | BillSucceeds(group: string)
    | ProcessRestart
    | StoreExpires(key: Key)
    | Forget(group: string)

  function MeterOf(w: World, k: Key): Meter {
    if k in w.meters then w.meters[k] else Meter(0, 0, 0)
  }

  predicate Shows(w: World, group: string, r: Report) {
    r.reading.Counters? ==> Total(r.reading) == Shown(MeterOf(w, Key(group, r.name)))
  }

  /** The report names each counter once and shows what the counters show. */
  ghost predicate Faithful(w: World, group: string, transfer: Transfer) {
    DistinctNames(transfer) && AllShow(w, group, transfer)
  }

  ghost predicate AllShow(w: World, group: string, transfer: Transfer) {
    forall i :: 0 <= i < |transfer| ==> Shows(w, group, transfer[i])
  }

  /** Whether a poll discarded a jump of this key. */
  predicate Jumped(w: World, newLast: map<Key, int>, cap: int, k: Key) {
    k in newLast && Assess(LoadLast(w.tracker, k), newLast[k], cap) == Jump
  }

  ghost function AfterPoll(w: World, group: string, transfer: Transfer, cap: int): World {
    var p := PeekAll(Peek(w.tracker, map[], map[]), group, transfer, cap);
    World(p.tracker, w.meters,
          map k | k in w.accounts ::
            if Jumped(w, p.newLast, cap, k) then w.accounts[k].(seen := MeterOf(w, k), gap := true) else w.accounts[k],
          w.pendings[group := Pending(p.deltas, p.newLast, map k | k in p.newLast :: MeterOf(w, k))])
  }

  /** The account after a commit.  A key without a baseline gets its first one, or, when an
      earlier baseline was lost, a new one after a gap. */
  function CommittedAccount(w: World, p: Pending, k: Key): Account
    requires k in p.newLast && k in p.seen
  {
    var d := if k.name in p.deltas then p.deltas[k.name] else 0;
    if k !in w.accounts then Account(p.seen[k], p.seen[k], 0, false)
    else
      var a := w.accounts[k];
      Account(a.first, p.seen[k], a.committed + d, a.gap || LoadLast(w.tracker, k) == None)
  }

  function AfterBill(w: World, group: string): World {
    if group !in w.pendings then w
    else
      var p := w.pendings[group];
      World(AfterCommit(w.tracker, p.newLast), w.meters,
            w.accounts + map k | k in p.newLast && k in p.seen :: CommittedAccount(w, p, k),
            w.pendings - {group})
  }

  ghost function Step(w: World, e: Event): World {
    match e
    case Move(k, n) => w.(meters := w.meters[k := MeterOf(w, k).(moved := MeterOf(w, k).moved + n)])
    case CounterReset(k) =>
      var m := MeterOf(w, k);
      w.(meters := w.meters[k := Meter(m.moved, m.moved, m.epoch + 1)])
    case Poll(g, transfer, cap) => if Faithful(w, g, transfer) then AfterPoll(w, g, transfer, cap) else w
    case BillFails(g) => w.(pendings := w.pendings - {g})
    case BillSucceeds(g) => AfterBill(w, g)
    case ProcessRestart => w.(tracker := w.tracker.(cache := map[]), pendings := map[])
    case StoreExpires(k) =>
      w.(tracker := w.tracker.(store := if w.tracker.store.Some? then Some(w.tracker.store.value - {k}) else None))
    case Forget(g) => w.(tracker := AfterForget(w.tracker, g))
  }

  ghost function Exec(w: World, es: seq<Event>): World
    decreases |es|
  {
    if es == [] then w else Exec(Step(w, es[0]), es[1..])
  }

  // ------------------------------------------------------------------ one key of a poll

  /** The cache and the store never disagree on a key both hold. */
  predicate Agree(t: Tracker, k: Key) {
    k in t.cache && t.store.Some? && k in t.store.value ==> t.cache[k] == t.store.value[k]
  }

  ghost predicate Lists(transfer: Transfer, name: string) {
    exists i :: 0 <= i < |transfer| && transfer[i].name == name
  }

  /** What a poll does to one key of its group: it depends on that key's own reading alone. */
  ghost predicate PolledAt(t: Tracker, p: Peek, k: Key, r: Reading, cap: int) {
    var last := LoadLast(t, k);
    && (Agree(t, k) ==> Agree(p.tracker, k))
    && (r.Unreadable? ==>
          k !in p.newLast && k.name !in p.deltas && LoadLast(p.tracker, k) == last)
    && (r.Counters? ==>
          var total := Total(r);
          var v := Assess(last, total, cap);
          && k in p.newLast && p.newLast[k] == total
          && (k.name in p.deltas <==> v.Delta?)
          && (v.Delta? ==> p.deltas[k.name] == v.bytes)
          && LoadLast(p.tracker, k) == if v == Jump then Some(total) else last)
  }

  lemma PeekOneElsewhere(p: Peek, group: string, name: string, r: Reading, cap: int, k: Key)
    requires k.group != group || k.name != name
    ensures var q := PeekOne(p, group, name, r, cap);
            && LoadLast(q.tracker, k) == LoadLast(p.tracker, k) && (Agree(p.tracker, k) ==> Agree(q.tracker, k))
            && (k in q.newLast <==> k in p.newLast) && (k in p.newLast ==> q.newLast[k] == p.newLast[k])
            && (k.name != name ==>
                  (k.name in q.deltas <==> k.name in p.deltas) &&
                  (k.name in p.deltas ==> q.deltas[k.name] == p.deltas[k.name]))
  {
  }

  lemma PeekOneHere(t: Tracker, p: Peek, k: Key, r: Reading, cap: int)
    requires PolledAt(t, p, k, Unreadable, cap)
    ensures PolledAt(t, PeekOne(p, k.group, k.name, r, cap), k, r, cap)
  {
  }

  lemma {:induction false} PollNotListed(t: Tracker, transfer: Transfer, cap: int, k: Key)
    requires !Lists(transfer, k.name)
    ensures PolledAt(t, PeekAll(Peek(t, map[], map[]), k.group, transfer, cap), k, Unreadable, cap)
    decreases |transfer|
  {
    if transfer != [] {
      var n := |transfer| - 1;
      assert !Lists(transfer[..n], k.name);
      PollNotListed(t, transfer[..n], cap, k);
      PeekOneElsewhere(PeekAll(Peek(t, map[], map[]), k.group, transfer[..n], cap),
                       k.group, transfer[n].name, transfer[n].reading, cap, k);
    }
  }

  lemma {:induction false} PollListed(t: Tracker, transfer: Transfer, cap: int, k: Key, i: nat)
    requires DistinctNames(transfer) && i < |transfer| && transfer[i].name == k.name
    ensures PolledAt(t, PeekAll(Peek(t, map[], map[]), k.group, transfer, cap), k, transfer[i].reading, cap)
    decreases |transfer|
  {
    var n := |transfer| - 1;
    var p := PeekAll(Peek(t, map[], map[]), k.group, transfer[..n], cap);
    if i == n {
      assert !Lists(transfer[..n], k.name);
      PollNotListed(t, transfer[..n], cap, k);
      PeekOneHere(t, p, k, transfer[n].reading, cap);
    } else {
      PollListed(t, transfer[..n], cap, k, i);
      PeekOneElsewhere(p, k.group, transfer[n].name, transfer[n].reading, cap, k);
    }
  }

  lemma {:induction false} PollElsewhere(t: Tracker, group: string, transfer: Transfer, cap: int, k: Key)
    requires k.group != group
    ensures var p := PeekAll(Peek(t, map[], map[]), group, transfer, cap);
            k !in p.newLast && LoadLast(p.tracker, k) == LoadLast(t, k) && (Agree(t, k) ==> Agree(p.tracker, k))
    decreases |transfer|
  {
    if transfer != [] {
      var n := |transfer| - 1;
      PollElsewhere(t, group, transfer[..n], cap, k);
      PeekOneElsewhere(PeekAll(Peek(t, map[], map[]), group, transfer[..n], cap),
                       group, transfer[n].name, transfer[n].reading, cap, k);
    }
  }

  // ------------------------------------------------------------------ the invariant of one key

  ghost predicate AccountOk(a: Account, m: Meter) {
    && Later(a.first, a.seen) && Later(a.seen, m)
    && a.committed <= a.seen.moved - a.first.moved
    && (a.seen.epoch == a.first.epoch && !a.gap ==> a.committed == a.seen.moved - a.first.moved)
  }

  ghost predicate PendingOk(w: World, p: Pending, k: Key) {
    && (k in p.newLast <==> k in p.seen)
    && (k.name in p.deltas ==> k in p.newLast)
    && (k in p.newLast ==>
          && p.newLast[k] == Shown(p.seen[k])
          && Later(p.seen[k], MeterOf(w, k))
          && (k in w.accounts ==> Later(w.accounts[k].seen, p.seen[k])))
    && (k.name in p.deltas ==>
          && k in w.accounts
          && var grown := p.seen[k].moved - w.accounts[k].seen.moved;
             p.deltas[k.name] <= grown &&
             (p.seen[k].epoch == w.accounts[k].seen.epoch ==> p.deltas[k.name] == grown))
    && (k in p.newLast && k.name !in p.deltas && k in w.accounts && LoadLast(w.tracker, k).Some? &&
        p.seen[k].epoch == w.accounts[k].seen.epoch && !w.accounts[k].gap ==>
          p.seen[k].moved == w.accounts[k].seen.moved)
  }

  ghost predicate KeyInv(w: World, k: Key) {
    && Agree(w.tracker, k)
    && MeterOf(w, k).resetAt <= MeterOf(w, k).moved
    && (k in w.accounts ==> AccountOk(w.accounts[k], MeterOf(w, k)))
    && (LoadLast(w.tracker, k).Some? ==>
          k in w.accounts && LoadLast(w.tracker, k).value == Shown(w.accounts[k].seen))
    && (k.group in w.pendings ==> PendingOk(w, w.pendings[k.group], k))
    && (forall g :: g in w.pendings && k in w.pendings[g].newLast ==> g == k.group)
  }

  /** The heart of it: a delta never exceeds the bytes moved since the baseline was read, and
      equals them when the counter was not reset in between. */
  lemma DeltaNeverExceedsMovement(seen: Meter, now: Meter)
    requires Later(seen, now)
    ensures Difference(Shown(seen), Shown(now)) <= now.moved - seen.moved
    ensures seen.epoch == now.epoch ==> Difference(Shown(seen), Shown(now)) == now.moved - seen.moved
  {
  }

  lemma PollKeepsItsKey(w: World, k: Key, p: Peek, r: Reading, cap: int, v: World)
    requires KeyInv(w, k) && PolledAt(w.tracker, p, k, r, cap)
    requires r.Counters? ==> Total(r) == Shown(MeterOf(w, k))
    requires v.tracker == p.tracker && MeterOf(v, k) == MeterOf(w, k)
    requires k in v.accounts <==> k in w.accounts
    requires k in w.accounts ==>
               v.accounts[k] == if r.Counters? && Assess(LoadLast(w.tracker, k), Total(r), cap) == Jump
                                then w.accounts[k].(seen := MeterOf(w, k), gap := true) else w.accounts[k]
    requires k.group in v.pendings && v.pendings[k.group].deltas == p.deltas
    requires v.pendings[k.group].newLast == p.newLast
    requires k in v.pendings[k.group].seen <==> k in p.newLast
    requires k in p.newLast ==> v.pendings[k.group].seen[k] == MeterOf(w, k)
    requires forall g :: g in v.pendings && k in v.pendings[g].newLast ==> g == k.group
    ensures KeyInv(v, k)
  {
    if k in w.accounts { DeltaNeverExceedsMovement(w.accounts[k].seen, MeterOf(w, k)); }
  }

  lemma {:induction false} PollKeepsOtherGroups(w: World, g: string, transfer: Transfer, cap: int, k: Key)
    requires KeyInv(w, k) && k.group != g
    ensures KeyInv(AfterPoll(w, g, transfer, cap), k)
  {
    PollElsewhere(w.tracker, g, transfer, cap, k);
    var v := AfterPoll(w, g, transfer, cap);
    assert k in w.accounts ==> k in v.accounts && v.accounts[k] == w.accounts[k];
    assert k in v.accounts ==> k in w.accounts;
    assert MeterOf(v, k) == MeterOf(w, k);
    if k.group in w.pendings { assert PendingOk(v, w.pendings[k.group], k); }
  }

  /** What a poll leaves of one key of its group, besides the tracker. */
  lemma AfterPollAt(w: World, transfer: Transfer, cap: int, k: Key, p: Peek)
    requires p == PeekAll(Peek(w.tracker, map[], map[]), k.group, transfer, cap)
    ensures var v := AfterPoll(w, k.group, transfer, cap);
            && v.tracker == p.tracker && v.meters == w.meters && (k in v.accounts <==> k in w.accounts)
            && (k in w.accounts ==> v.accounts[k] == if Jumped(w, p.newLast, cap, k)
                                                     then w.accounts[k].(seen := MeterOf(w, k), gap := true) else w.accounts[k])
            && k.group in v.pendings && v.pendings[k.group].deltas == p.deltas && v.pendings[k.group].newLast == p.newLast
            && v.pendings == w.pendings[k.group := v.pendings[k.group]]
            && (k in v.pendings[k.group].seen <==> k in p.newLast)
            && (k in p.newLast ==> v.pendings[k.group].seen[k] == MeterOf(w, k))
  {
    hide PeekAll, Jumped, MeterOf;
  }

  lemma OwnGroupOnly(w: World, k: Key, g: string)
    requires KeyInv(w, k) && g in w.pendings && k in w.pendings[g].newLast
    ensures g == k.group
  {
    hide PendingOk, AccountOk;
  }

  lemma PollKeepsPolledKey(w: World, transfer: Transfer, cap: int, k: Key, r: Reading)
    requires KeyInv(w, k)
    requires PolledAt(w.tracker, PeekAll(Peek(w.tracker, map[], map[]), k.group, transfer, cap), k, r, cap)
    requires r.Counters? ==> Total(r) == Shown(MeterOf(w, k))
    ensures KeyInv(AfterPoll(w, k.group, transfer, cap), k)
  {
    hide AfterPoll, PeekAll, KeyInv, LoadLast, Assess, Agree, MeterOf;
    var p := PeekAll(Peek(w.tracker, map[], map[]), k.group, transfer, cap);
    var v := AfterPoll(w, k.group, transfer, cap);
    AfterPollAt(w, transfer, cap, k, p);
    forall g | g in v.pendings && k in v.pendings[g].newLast ensures g == k.group {
      if g != k.group { OwnGroupOnly(w, k, g); }
    }
    assert MeterOf(v, k) == MeterOf(w, k) by { SameMeters(w, v, k); }
    assert k in p.newLast <==> r.Counters?;
    PollKeepsItsKey(w, k, p, r, cap, v);
  }

  lemma SameMeters(w: World, v: World, k: Key)
    requires v.meters == w.meters
    ensures MeterOf(v, k) == MeterOf(w, k)
  {
  }

  lemma {:induction false} PollKeepsListedKey(w: World, transfer: Transfer, cap: int, k: Key, i: nat)
    requires KeyInv(w, k) && DistinctNames(transfer) && AllShow(w, k.group, transfer)
    requires i < |transfer| && transfer[i].name == k.name
    ensures KeyInv(AfterPoll(w, k.group, transfer, cap), k)
  {
    assert Shows(w, k.group, transfer[i]);
    assert Key(k.group, transfer[i].name) == k;
    PollListed(w.tracker, transfer, cap, k, i);
    PollKeepsPolledKey(w, transfer, cap, k, transfer[i].reading);
  }

  lemma {:induction false} PollKeepsKeyInv(w: World, g: string, transfer: Transfer, cap: int, k: Key)
    requires KeyInv(w, k) && Faithful(w, g, transfer)
    ensures KeyInv(AfterPoll(w, g, transfer, cap), k)
  {
    if k.group != g {
      PollKeepsOtherGroups(w, g, transfer, cap, k);
    } else if Lists(transfer, k.name) {
      var i: nat :| i < |transfer| && transfer[i].name == k.name;
      PollKeepsListedKey(w, transfer, cap, k, i);
    } else {
      PollNotListed(w.tracker, transfer, cap, k);
      PollKeepsPolledKey(w, transfer, cap, k, Unreadable);
    }
  }

  lemma BillKeepsItsAccount(w: World, k: Key)
    requires KeyInv(w, k) && k.group in w.pendings && k in w.pendings[k.group].newLast
    ensures var a := CommittedAccount(w, w.pendings[k.group], k);
            AccountOk(a, MeterOf(w, k)) && Shown(a.seen) == w.pendings[k.group].newLast[k]
  {
  }

  lemma BillKeepsKeyInv(w: World, g: string, k: Key)
    requires KeyInv(w, k)
    ensures KeyInv(AfterBill(w, g), k)
  {
    if g in w.pendings {
      if k in w.pendings[g].newLast {
        BillKeepsItsAccount(w, k);
      }
    }
  }

  lemma StepKeepsKeyInv(w: World, e: Event, k: Key)
    requires KeyInv(w, k)
    ensures KeyInv(Step(w, e), k)
  {
    if e.Poll? {
      hide KeyInv, AfterPoll, Faithful;
      if Faithful(w, e.group, e.transfer) { PollKeepsKeyInv(w, e.group, e.transfer, e.cap, k); }
    } else if e.BillSucceeds? {
      hide KeyInv, AfterBill;
      BillKeepsKeyInv(w, e.group, k);
    }
  }

  lemma {:induction false} RunKeepsKeyInv(w: World, es: seq<Event>, k: Key)
    requires KeyInv(w, k)
    ensures KeyInv(Exec(w, es), k)
    decreases |es|
  {
    if es != [] {
      StepKeepsKeyInv(w, es[0], k);
      RunKeepsKeyInv(Step(w, es[0]), es[1..], k);
    }
  }

  /** No baseline is known and no bill is outstanding; counters may already have run. */
  ghost predicate Initial(w: World) {
    && w.tracker.cache == map[] && (w.tracker.store.Some? ==> w.tracker.store.value == map[])
    && w.accounts == map[] && w.pendings == map[]
    && forall k :: k in w.meters ==> w.meters[k].resetAt <= w.meters[k].moved
  }

  /** Over every run of traffic, counter resets, polls, failed and successful bills, discarded
      jumps, lost baselines and process restarts, what was committed for a key never exceeds the
      bytes that moved since its first baseline, and equals the bytes that moved up to its
      current baseline when no reset, discard or loss intervened. */
  lemma CommittedNeverExceedsMoved(w: World, es: seq<Event>, k: Key)
    requires Initial(w)
    ensures var v := Exec(w, es);
            k in v.accounts ==>
              var a := v.accounts[k];
              && a.committed <= a.seen.moved - a.first.moved <= MeterOf(v, k).moved - a.first.moved
              && (a.seen.epoch == a.first.epoch && !a.gap ==> a.committed == a.seen.moved - a.first.moved)
  {
    RunKeepsKeyInv(w, es, k);
  }

  // ------------------------------------------------------------------ what is billed, exactly

  /** For this key the event is ordinary: no counter reset, no lost baseline, and no poll that
      finds more bytes moved since the baseline than its cap allows. */
  ghost predicate Ordinary(w: World, e: Event, k: Key) {
    && e != CounterReset(k)
    && (LoadLast(w.tracker, k).Some? ==> LoadLast(Step(w, e).tracker, k).Some?)
    && (e.Poll? && e.group == k.group && e.cap != 0 && LoadLast(w.tracker, k).Some? && k in w.accounts ==>
          MeterOf(w, k).moved - w.accounts[k].seen.moved <= e.cap)
  }

  ghost predicate OrdinaryThroughout(w: World, es: seq<Event>, k: Key)
    decreases |es|
  {
    es == [] || (Ordinary(w, es[0], k) && OrdinaryThroughout(Step(w, es[0]), es[1..], k))
  }

  /** Nothing has been discarded or lost, and the counter runs in its first epoch. */
  ghost predicate Exact(w: World, k: Key) {
    && KeyInv(w, k)
    && (k in w.accounts ==>
          && LoadLast(w.tracker, k).Some? && !w.accounts[k].gap
          && w.accounts[k].first.epoch == MeterOf(w, k).epoch)
    && (k.group in w.pendings && k in w.pendings[k.group].seen ==>
          w.pendings[k.group].seen[k].epoch == MeterOf(w, k).epoch)
  }

  lemma PollReading(w: World, transfer: Transfer, cap: int, k: Key) returns (r: Reading)
    requires Faithful(w, k.group, transfer)
    ensures PolledAt(w.tracker, PeekAll(Peek(w.tracker, map[], map[]), k.group, transfer, cap), k, r, cap)
    ensures r.Counters? ==> Total(r) == Shown(MeterOf(w, k))
  {
    if Lists(transfer, k.name) {
      var i: nat :| i < |transfer| && transfer[i].name == k.name;
      PollListed(w.tracker, transfer, cap, k, i);
      assert Shows(w, k.group, transfer[i]) && Key(k.group, transfer[i].name) == k;
      r := transfer[i].reading;
    } else {
      PollNotListed(w.tracker, transfer, cap, k);
      r := Unreadable;
    }
  }

  /** Within its cap, a poll of the key's group discards nothing and keeps the baseline. */
  lemma OrdinaryPollDiscardsNothing(w: World, p: Peek, k: Key, r: Reading, cap: int)
    requires Exact(w, k) && PolledAt(w.tracker, p, k, r, cap)
    requires r.Counters? ==> Total(r) == Shown(MeterOf(w, k))
    requires cap != 0 && k in w.accounts ==> MeterOf(w, k).moved - w.accounts[k].seen.moved <= cap
    ensures !Jumped(w, p.newLast, cap, k) && LoadLast(p.tracker, k) == LoadLast(w.tracker, k)
  {
    hide PendingOk, LoadLast, MeterOf;
    if k in w.accounts {
      assert w.accounts[k].seen.epoch == MeterOf(w, k).epoch;
      DeltaNeverExceedsMovement(w.accounts[k].seen, MeterOf(w, k));
    }
    hide KeyInv;
  }

  lemma OrdinaryPollIsExact(w: World, g: string, transfer: Transfer, cap: int, k: Key)
    requires Exact(w, k) && Faithful(w, g, transfer) && Ordinary(w, Poll(g, transfer, cap), k)
    ensures Exact(AfterPoll(w, g, transfer, cap), k)
  {
    var v := AfterPoll(w, g, transfer, cap);
    PollKeepsKeyInv(w, g, transfer, cap, k);
    hide PeekAll, KeyInv, LoadLast, Faithful, Assess;
    if g == k.group {
      var r := PollReading(w, transfer, cap, k);
      OrdinaryPollDiscardsNothing(w, PeekAll(Peek(w.tracker, map[], map[]), g, transfer, cap), k, r, cap);
    } else {
      PollElsewhere(w.tracker, g, transfer, cap, k);
    }
    assert MeterOf(v, k) == MeterOf(w, k);
  }

  lemma OrdinaryStepIsExact(w: World, e: Event, k: Key)
    requires Exact(w, k) && Ordinary(w, e, k)
    ensures Exact(Step(w, e), k)
  {
    StepKeepsKeyInv(w, e, k);
    match e
    case Poll(g, transfer, cap) => if Faithful(w, g, transfer) { OrdinaryPollIsExact(w, g, transfer, cap, k); }
    case _ =>
  }

  lemma {:induction false} OrdinaryRunIsExact(w: World, es: seq<Event>, k: Key)
    requires Exact(w, k) && OrdinaryThroughout(w, es, k)
    ensures Exact(Exec(w, es), k)
    decreases |es|
  {
    if es != [] {
      OrdinaryStepIsExact(w, es[0], k);
      OrdinaryRunIsExact(Step(w, es[0]), es[1..], k);
    }
  }

  /** While a counter is not reset, its baseline not lost and no poll finds more than its cap
      moved, the bytes committed are the bytes that moved between its first baseline and its
      current one, whatever bills failed and workers restarted on the way. */
  lemma EveryOrdinaryByteIsCommitted(w: World, es: seq<Event>, k: Key)
    requires Initial(w) && OrdinaryThroughout(w, es, k)
    ensures var v := Exec(w, es);
            k in v.accounts ==> v.accounts[k].committed == v.accounts[k].seen.moved - v.accounts[k].first.moved
  {
    OrdinaryRunIsExact(w, es, k);
  }

  /** A poll that finds more than a positive cap moved since the baseline reports nothing for the
      key, commits nothing, and takes the reading as the new baseline. */
  lemma PollDiscardsAboveTheCap(w: World, es: seq<Event>, transfer: Transfer, cap: int, k: Key, i: nat)
    requires Initial(w) && var u := Exec(w, es);
             && Faithful(u, k.group, transfer) && i < |transfer| && transfer[i].name == k.name
             && transfer[i].reading.Counters? && LoadLast(u.tracker, k).Some? && k in u.accounts
             && u.accounts[k].seen.epoch == MeterOf(u, k).epoch
             && 0 < cap < MeterOf(u, k).moved - u.accounts[k].seen.moved
    ensures var u := Exec(w, es); var v := Step(u, Poll(k.group, transfer, cap));
            && k.group in v.pendings && k.name !in v.pendings[k.group].deltas
            && LoadLast(v.tracker, k) == Some(transfer[i].reading.rx + transfer[i].reading.tx)
            && k in v.accounts && v.accounts[k].seen == MeterOf(u, k) && v.accounts[k].committed == u.accounts[k].committed
  {
    RunKeepsKeyInv(w, es, k);
    var u := Exec(w, es);
    DeltaNeverExceedsMovement(u.accounts[k].seen, MeterOf(u, k));
    PollListed(u.tracker, transfer, cap, k, i);
    assert Shows(u, k.group, transfer[i]) && Key(k.group, transfer[i].name) == k;
  }

  /** A poll that finds some bytes moved, within its cap or without one, reports exactly those
      bytes and leaves the baseline to the bill; a bill that then succeeds commits them. */
  lemma PollReportsWhatMoved(w: World, es: seq<Event>, transfer: Transfer, cap: int, k: Key, i: nat)
    requires Initial(w) && var u := Exec(w, es);
             && Faithful(u, k.group, transfer) && i < |transfer| && transfer[i].name == k.name
             && transfer[i].reading.Counters? && LoadLast(u.tracker, k).Some? && k in u.accounts
             && u.accounts[k].seen.epoch == MeterOf(u, k).epoch
             && var moved := MeterOf(u, k).moved - u.accounts[k].seen.moved;
                0 < moved && (cap == 0 || moved <= cap)
    ensures var u := Exec(w, es); var v := Step(u, Poll(k.group, transfer, cap));
            && k.group in v.pendings && k.name in v.pendings[k.group].deltas
            && v.pendings[k.group].deltas[k.name] == MeterOf(u, k).moved - u.accounts[k].seen.moved
            && LoadLast(v.tracker, k) == LoadLast(u.tracker, k)
            && var b := Step(v, BillSucceeds(k.group));
               && k in b.accounts && b.accounts[k].seen == MeterOf(u, k)
               && b.accounts[k].committed == u.accounts[k].committed + MeterOf(u, k).moved - u.accounts[k].seen.moved
               && LoadLast(b.tracker, k) == Some(Shown(MeterOf(u, k)))
  {
    RunKeepsKeyInv(w, es, k);
    var u := Exec(w, es);
    DeltaNeverExceedsMovement(u.accounts[k].seen, MeterOf(u, k));
    PollListed(u.tracker, transfer, cap, k, i);
    assert Shows(u, k.group, transfer[i]) && Key(k.group, transfer[i].name) == k;
    hide PeekAll, KeyInv, Faithful;
    var v := Step(u, Poll(k.group, transfer, cap));
    assert v.accounts[k] == u.accounts[k];
  }

  /** What a peek makes of one reading, in bytes: nothing without a baseline; otherwise the bytes
      since it, or all the counter shows when it went back; nothing if that exceeds a cap, and then
      the reading becomes the baseline at once. */
  ghost predicate MeteredAt(before: Tracker, after: Peek, k: Key, r: Reading, cap: int) {
    match r
    case Unreadable => k !in after.newLast && k.name !in after.deltas && LoadLast(after.tracker, k) == LoadLast(before, k)
    case Counters(rx, tx) =>
      && k in after.newLast && after.newLast[k] == rx + tx
      && match LoadLast(before, k)
         case None => k.name !in after.deltas && LoadLast(after.tracker, k) == None
         case Some(last) =>
           var moved := if last <= rx + tx then rx + tx - last else rx + tx;
           && (k.name in after.deltas <==> 0 < moved && (cap == 0 || moved <= cap))
           && (k.name in after.deltas ==> after.deltas[k.name] == moved)
           && LoadLast(after.tracker, k) == Some(if cap != 0 && moved > cap && moved > 0 then rx + tx else last)
  }

  lemma PeekMeters(t: Tracker, group: string, transfer: Transfer, cap: int)
    requires DistinctNames(transfer)
    ensures var p := PeekAll(Peek(t, map[], map[]), group, transfer, cap);
            && (forall i :: 0 <= i < |transfer| ==>
                  MeteredAt(t, p, Key(group, transfer[i].name), transfer[i].reading, cap))
            && (forall k: Key :: k.group != group || !Lists(transfer, k.name) ==>
                  k !in p.newLast && LoadLast(p.tracker, k) == LoadLast(t, k))
            && forall name :: name in p.deltas ==> Lists(transfer, name)
  {
    hide PeekAll, LoadLast;
    var p := PeekAll(Peek(t, map[], map[]), group, transfer, cap);
    forall i | 0 <= i < |transfer|
      ensures MeteredAt(t, p, Key(group, transfer[i].name), transfer[i].reading, cap)
    {
      PollListed(t, transfer, cap, Key(group, transfer[i].name), i);
    }
    forall k: Key | k.group != group || !Lists(transfer, k.name)
      ensures k !in p.newLast && LoadLast(p.tracker, k) == LoadLast(t, k)
    {
      if k.group != group { PollElsewhere(t, group, transfer, cap, k); } else { PollNotListed(t, transfer, cap, k); }
    }
    forall name | name in p.deltas ensures Lists(transfer, name) {
      if !Lists(transfer, name) { PollNotListed(t, transfer, cap, Key(group, name)); }
    }
  }

  // ------------------------------------------------------------------ the tracker object

  lemma CommitOneMore(t: Tracker, done: map<Key, int>, k: Key, v: int)
    ensures AfterSave(AfterCommit(t, done), k, v) == AfterCommit(t, done[k := v])
  {
    assert (t.cache + done)[k := v] == t.cache + done[k := v];
    if t.store.Some? { assert (t.store.value + done)[k := v] == t.store.value + done[k := v]; }
  }

  lemma CommitNothing(t: Tracker)
    ensures AfterCommit(t, map[]) == t
  {
    assert t.cache + map[] == t.cache;
    if t.store.Some? { assert t.store.value + map[] == t.store.value; }
  }

  class CumulativeByteTracker {
    var last: map<Key, int>
    var store: Option<map<Key, int>>

    function State(): Tracker
      reads this
    {
      Tracker(last, store)
    }

    constructor (store: Option<map<Key, int>>)
      ensures State() == Tracker(map[], store)
    {
      last, this.store := map[], store;
    }

    method Load(k: Key) returns (r: Option<int>)
      modifies this`last
      ensures State() == AfterLoad(old(State()), k) && r == LoadLast(old(State()), k)
    {
      if k in last {
        assert last == last[k := last[k]];
        return Some(last[k]);
      }
      if store == None || k !in store.value { return None; }
      last := last[k := store.value[k]];
      return Some(store.value[k]);
    }

    method Save(k: Key, total: int)
      modifies this
      ensures State() == AfterSave(old(State()), k, total)
    {
      last := last[k := total];
      if store.Some? { store := Some(store.value[k := total]); }
    }

    method PeekDeltas(group: string, transfer: Transfer, cap: int)
      returns (out: map<string, int>, newLast: map<Key, int>)
      modifies this
      ensures Peek(State(), out, newLast) == PeekAll(Peek(old(State()), map[], map[]), group, transfer, cap)
      ensures DistinctNames(transfer) ==>
                && (forall i :: 0 <= i < |transfer| ==>
                      MeteredAt(old(State()), Peek(State(), out, newLast), Key(group, transfer[i].name), transfer[i].reading, cap))
                && (forall k: Key :: k.group != group || !Lists(transfer, k.name) ==>
                      k !in newLast && LoadLast(State(), k) == LoadLast(old(State()), k))
                && forall name :: name in out ==> Lists(transfer, name)
    {
      hide MeteredAt;
      if DistinctNames(transfer) { PeekMeters(State(), group, transfer, cap); }
      out, newLast := map[], map[];
      for i := 0 to |transfer|
        invariant Peek(State(), out, newLast)
               == PeekAll(Peek(old(State()), map[], map[]), group, transfer[..i], cap)
      {
        assert transfer[..i + 1][..i] == transfer[..i];
        var r := transfer[i].reading;
        if r.Unreadable? { continue; }
        var total, key := r.rx + r.tx, Key(group, transfer[i].name);
        var base := Load(key);
        newLast := newLast[key := total];
        if base == None { continue; }
        var delta := total - base.value;
        if total < base.value { delta := total; }
        if delta <= 0 { continue; }
        if cap != 0 && delta > cap {
          Save(key, total);
          continue;
        }
        out := out[transfer[i].name := delta];
      }
      assert transfer[..|transfer|] == transfer;
    }

    method CommitPending(newLast: map<Key, int>)
      modifies this
      ensures State() == AfterCommit(old(State()), newLast)
    {
      var todo := newLast.Keys;
      ghost var done: map<Key, int> := map[];
      CommitNothing(State());
      while todo != {}
        invariant todo <= newLast.Keys && done.Keys == newLast.Keys - todo
        invariant forall k :: k in done ==> done[k] == newLast[k]
        invariant State() == AfterCommit(old(State()), done)
        decreases |todo|
      {
        var k :| k in todo;
        CommitOneMore(old(State()), done, k, newLast[k]);
        Save(k, newLast[k]);
        done := done[k := newLast[k]];
        todo := todo - {k};
      }
      assert done == newLast;
    }
  }
}
