/** Resumable WireGuard peer sync: batches of `wg set` commands against an interface, replayed
    from any earlier point after a disconnect. */
module PeerSync {
  import opened Base

  type Key = string
  type Ip = string

  /** An interface: the preshared key of each peer, and which peer each allowed address belongs to. */
  datatype Device = Device(psk: map<Key, Option<string>>, owner: map<Ip, Key>)

  function AllowedIps(d: Device, k: Key): set<Ip> { set ip | ip in d.owner && d.owner[ip] == k }

  /** `accepted` says whether `wg` takes the arguments; a command it rejects has no effect. */
  datatype Command = Remove(key: Key) | Put(key: Key, ips: set<Ip>, psk: Option<string>, accepted: bool)

  /** Adding a peer takes its addresses away from other peers, replaces its own, and keeps a
      preshared key that the command does not give. */
  function Apply(d: Device, c: Command): Device {
    match c
    case Remove(k) =>
      Device(d.psk - {k}, map ip | ip in d.owner && d.owner[ip] != k :: d.owner[ip])
    case Put(k, ips, psk, accepted) =>
      if !accepted then d
      else
        Device(d.psk[k := if psk.Some? then psk else if k in d.psk then d.psk[k] else None],
               map ip | ip in d.owner.Keys + ips && (ip in ips || d.owner[ip] != k) ::
                 if ip in ips then k else d.owner[ip])
  }

  function ApplyAll(d: Device, cs: seq<Command>): Device {
    if cs == [] then d else Apply(ApplyAll(d, cs[..|cs| - 1]), cs[|cs| - 1])
  }

  // ------------------------------------------------------------------ batches

  datatype Row = Row(key: Key, active: bool, allowed: set<Ip>, psk: Option<string>, accepted: bool)

  datatype Batch = Batch(removes: seq<Key>, rows: seq<Row>)

  function RemoveCommands(removes: seq<Key>): seq<Command> {
    if removes == [] then []
    else
      var k := removes[|removes| - 1];
      RemoveCommands(removes[..|removes| - 1]) + (if k == "" then [] else [Remove(k)])
  }

  function RowCommand(r: Row): seq<Command> {
    if r.key == "" then []
    else if !r.active then [Remove(r.key)]
    else if r.allowed == {} then []
    else [Put(r.key, r.allowed, r.psk, r.accepted)]
  }

  function RowCommands(rows: seq<Row>): seq<Command> {
    if rows == [] then [] else RowCommands(rows[..|rows| - 1]) + RowCommand(rows[|rows| - 1])
  }

  function Commands(b: Batch): seq<Command> { RemoveCommands(b.removes) + RowCommands(b.rows) }

  /** The commands of the batches from `low` up to `high`. */
  function Stretch(bs: seq<Batch>, low: nat, high: nat): seq<Command>
    requires high <= |bs|
    decreases high
  {
    if low >= high then [] else Stretch(bs, low, high - 1) + Commands(bs[high - 1])
  }

  lemma {:induction false} ApplyAppend(d: Device, a: seq<Command>, b: seq<Command>)
    ensures ApplyAll(d, a + b) == ApplyAll(ApplyAll(d, a), b)
    decreases |b|
  {
    if b == [] {
      assert a + b == a;
    } else {
      assert (a + b)[..|a + b| - 1] == a + b[..|b| - 1];
      ApplyAppend(d, a, b[..|b| - 1]);
    }
  }

  lemma Associative(a: seq<Command>, b: seq<Command>, c: seq<Command>)
    ensures (a + b) + c == a + (b + c)
  {
  }

  lemma {:induction false} StretchSplit(bs: seq<Batch>, low: nat, mid: nat, high: nat)
    requires low <= mid <= high <= |bs|
    ensures Stretch(bs, low, high) == Stretch(bs, low, mid) + Stretch(bs, mid, high)
    decreases high
  {
    hide Commands;
    if mid == high {
      assert Stretch(bs, low, mid) + [] == Stretch(bs, low, mid);
    } else {
      StretchSplit(bs, low, mid, high - 1);
      Associative(Stretch(bs, low, mid), Stretch(bs, mid, high - 1), Commands(bs[high - 1]));
    }
  }

  lemma {:induction false} StretchHolds(bs: seq<Batch>, low: nat, i: nat, high: nat, c: Command)
    requires low <= i < high <= |bs| && c in Commands(bs[i])
    ensures c in Stretch(bs, low, high)
    decreases high
  {
    hide Commands;
    if i < high - 1 { StretchHolds(bs, low, i, high - 1, c); }
  }

  // ------------------------------------------------------------------ absorption

  /** Two devices that a command makes equal. */
  ghost predicate Alike(d: Device, e: Device, c: Command) { Apply(d, c) == Apply(e, c) }

  /** A peer's preshared key, if the peer is there. */
  function PeerAt(d: Device, k: Key): Option<Option<string>> { if k in d.psk then Some(d.psk[k]) else None }

  function OwnerAt(d: Device, ip: Ip): Option<Key> { if ip in d.owner then Some(d.owner[ip]) else None }

  lemma SameEverywhere(d: Device, e: Device)
    requires forall k :: PeerAt(d, k) == PeerAt(e, k)
    requires forall ip :: OwnerAt(d, ip) == OwnerAt(e, ip)
    ensures d == e
  {
    forall k ensures k in d.psk <==> k in e.psk { assert PeerAt(d, k) == PeerAt(e, k); }
    forall k | k in d.psk ensures d.psk[k] == e.psk[k] { assert PeerAt(d, k) == PeerAt(e, k); }
    forall ip ensures ip in d.owner <==> ip in e.owner { assert OwnerAt(d, ip) == OwnerAt(e, ip); }
    forall ip | ip in d.owner ensures d.owner[ip] == e.owner[ip] { assert OwnerAt(d, ip) == OwnerAt(e, ip); }
    assert d.psk == e.psk && d.owner == e.owner;
  }

  /** What a command does to one peer and to one address. */
  function PeerStep(p: Option<Option<string>>, c: Command, k: Key): Option<Option<string>> {
    if c.key != k || (c.Put? && !c.accepted) then p
    else if c.Remove? then None
    else if c.psk.Some? then Some(c.psk) else if p == None then Some(None) else p
  }

  function OwnerStep(o: Option<Key>, c: Command, ip: Ip): Option<Key> {
    if c.Put? && !c.accepted then o
    else if c.Put? && ip in c.ips then Some(c.key)
    else if o == Some(c.key) then None else o
  }

  lemma ApplyAt(d: Device, c: Command, k: Key, ip: Ip)
    ensures PeerAt(Apply(d, c), k) == PeerStep(PeerAt(d, k), c, k)
    ensures OwnerAt(Apply(d, c), ip) == OwnerStep(OwnerAt(d, ip), c, ip)
  {
  }

  lemma AlikeKept(d: Device, e: Device, x: Command, y: Command)
    requires Alike(d, e, x)
    ensures Alike(Apply(d, y), Apply(e, y), x)
  {
    hide Apply, PeerAt, OwnerAt;
    var a, b := Apply(Apply(d, y), x), Apply(Apply(e, y), x);
    forall k ensures PeerAt(a, k) == PeerAt(b, k) { AlikeAt(d, e, x, y, k, ""); }
    forall ip ensures OwnerAt(a, ip) == OwnerAt(b, ip) { AlikeAt(d, e, x, y, "", ip); }
    SameEverywhere(a, b);
  }

  lemma AlikeAt(d: Device, e: Device, x: Command, y: Command, k: Key, ip: Ip)
    requires Alike(d, e, x)
    ensures PeerAt(Apply(Apply(d, y), x), k) == PeerAt(Apply(Apply(e, y), x), k)
    ensures OwnerAt(Apply(Apply(d, y), x), ip) == OwnerAt(Apply(Apply(e, y), x), ip)
  {
    hide Apply, PeerAt, OwnerAt;
    ApplyAt(d, x, k, ip);
    ApplyAt(e, x, k, ip);
    ApplyAt(d, y, k, ip);
    ApplyAt(e, y, k, ip);
    ApplyAt(Apply(d, y), x, k, ip);
    ApplyAt(Apply(e, y), x, k, ip);
  }

  lemma TwiceIsOnce(d: Device, c: Command)
    ensures Apply(Apply(d, c), c) == Apply(d, c)
  {
    hide Apply, PeerAt, OwnerAt;
    var e := Apply(d, c);
    forall k ensures PeerAt(Apply(e, c), k) == PeerAt(e, k) { ApplyAt(d, c, k, ""); ApplyAt(e, c, k, ""); }
    forall ip ensures OwnerAt(Apply(e, c), ip) == OwnerAt(e, ip) { ApplyAt(d, c, "", ip); ApplyAt(e, c, "", ip); }
    SameEverywhere(Apply(e, c), e);
  }

  lemma {:induction false} AlikeAlong(d: Device, e: Device, x: Command, cs: seq<Command>)
    requires Alike(d, e, x)
    ensures Alike(ApplyAll(d, cs), ApplyAll(e, cs), x)
    decreases |cs|
  {
    if cs != [] {
      hide Apply;
      var before := cs[..|cs| - 1];
      AlikeAlong(d, e, x, before);
      AlikeKept(ApplyAll(d, before), ApplyAll(e, before), x, cs[|cs| - 1]);
    }
  }

  /** A command makes no difference before commands that repeat it. */
  lemma {:induction false} Absorbed(d: Device, x: Command, cs: seq<Command>)
    requires x in cs
    ensures ApplyAll(Apply(d, x), cs) == ApplyAll(d, cs)
    decreases |cs|
  {
    hide Apply;
    var before, y := cs[..|cs| - 1], cs[|cs| - 1];
    if x == y {
      TwiceIsOnce(d, x);
      AlikeAlong(Apply(d, x), d, x, before);
    } else {
      assert x in before;
      Absorbed(d, x, before);
    }
  }

  lemma {:induction false} AllAbsorbed(d: Device, xs: seq<Command>, cs: seq<Command>)
    requires forall x :: x in xs ==> x in cs
    ensures ApplyAll(ApplyAll(d, xs), cs) == ApplyAll(d, cs)
    decreases |xs|
  {
    if xs != [] {
      hide Apply;
      var before := xs[..|xs| - 1];
      Absorbed(ApplyAll(d, before), xs[|xs| - 1], cs);
      AllAbsorbed(d, before, cs);
    }
  }

  // ------------------------------------------------------------------ interrupted syncs

  /** One sending of a batch: all of its commands, or only the first `sent` when the agent or a
      command fails on the way. */
  datatype Sending = Whole(batch: nat) | Cut(batch: nat, sent: nat)

  function CommandsSent(bs: seq<Batch>, s: Sending): seq<Command>
    requires s.batch < |bs|
  {
    var cs := Commands(bs[s.batch]);
    if s.Whole? then cs else cs[..Min(s.sent, |cs|)]
  }

  /** The batch from which a sync may go on: after a whole one the next, after a cut one the same. */
  function After(s: Sending): nat { if s.Whole? then s.batch + 1 else s.batch }

  function Next(schedule: seq<Sending>): nat { if schedule == [] then 0 else After(schedule[|schedule| - 1]) }

  /** A sync as it happens: each sending starts at the batch that is due or, after a reconnect, at
      any earlier one. */
  ghost predicate Resumable(schedule: seq<Sending>, n: nat) {
    && (forall i :: 0 <= i < |schedule| ==> schedule[i].batch < n)
    && (schedule != [] ==> schedule[0].batch == 0)
    && (forall i :: 0 < i < |schedule| ==> schedule[i].batch <= After(schedule[i - 1]))
  }

  function Synced(d: Device, bs: seq<Batch>, schedule: seq<Sending>): Device
    requires forall i :: 0 <= i < |schedule| ==> schedule[i].batch < |bs|
  {
    if schedule == [] then d
    else
      var n := |schedule| - 1;
      ApplyAll(Synced(d, bs, schedule[..n]), CommandsSent(bs, schedule[n]))
  }

  /** How many batches have been started. */
  function Covered(schedule: seq<Sending>): nat {
    if schedule == [] then 0 else Max(Covered(schedule[..|schedule| - 1]), schedule[|schedule| - 1].batch + 1)
  }

  /** From anywhere at or before the next batch, finishing the sync gives the device of one clean sync. */
  ghost predicate OnTrack(d: Device, now: Device, bs: seq<Batch>, next: nat, covered: nat) {
    forall j: nat, m: nat :: j <= next && covered <= m <= |bs| && j <= m ==>
      ApplyAll(now, Stretch(bs, j, m)) == ApplyAll(d, Stretch(bs, 0, m))
  }

  lemma BatchThenRest(d: Device, bs: seq<Batch>, i: nat, m: nat)
    requires i < m <= |bs|
    ensures ApplyAll(ApplyAll(d, Commands(bs[i])), Stretch(bs, i + 1, m)) == ApplyAll(d, Stretch(bs, i, m))
  {
    hide Apply, ApplyAll, Commands;
    StretchSplit(bs, i, i + 1, m);
    assert Stretch(bs, i, i + 1) == [] + Commands(bs[i]) == Commands(bs[i]);
    ApplyAppend(d, Commands(bs[i]), Stretch(bs, i + 1, m));
  }

  lemma SendingKeepsTrack(d: Device, now: Device, bs: seq<Batch>, next: nat, covered: nat, s: Sending)
    requires OnTrack(d, now, bs, next, covered) && s.batch < |bs| && s.batch <= next
    ensures OnTrack(d, ApplyAll(now, CommandsSent(bs, s)), bs, After(s), Max(covered, s.batch + 1))
  {
    hide Apply, ApplyAll, Commands, Stretch;
    var i, cs := s.batch, CommandsSent(bs, s);
    forall j: nat, m: nat | j <= After(s) && Max(covered, i + 1) <= m <= |bs| && j <= m
      ensures ApplyAll(ApplyAll(now, cs), Stretch(bs, j, m)) == ApplyAll(d, Stretch(bs, 0, m))
    {
      if j == i + 1 {
        BatchThenRest(now, bs, i, m);
        assert ApplyAll(now, Stretch(bs, i, m)) == ApplyAll(d, Stretch(bs, 0, m));
      } else {
        forall c | c in cs ensures c in Stretch(bs, j, m) { StretchHolds(bs, j, i, m, c); }
        AllAbsorbed(now, cs, Stretch(bs, j, m));
      }
    }
  }

  lemma {:induction false} SyncStaysOnTrack(d: Device, bs: seq<Batch>, schedule: seq<Sending>)
    requires Resumable(schedule, |bs|)
    ensures OnTrack(d, Synced(d, bs, schedule), bs, Next(schedule), Covered(schedule))
    decreases |schedule|
  {
    if schedule != [] {
      hide OnTrack, Apply, ApplyAll, Commands, CommandsSent;
      var before := schedule[..|schedule| - 1];
      SyncStaysOnTrack(d, bs, before);
      SendingKeepsTrack(d, Synced(d, bs, before), bs, Next(before), Covered(before), schedule[|schedule| - 1]);
    } else {
      StartOnTrack(d, bs);
    }
  }

  lemma StartOnTrack(d: Device, bs: seq<Batch>)
    ensures OnTrack(d, d, bs, 0, 0)
  {
  }

  lemma {:induction false} CoveredBound(schedule: seq<Sending>, n: nat)
    requires Resumable(schedule, n)
    ensures Next(schedule) <= Covered(schedule) <= n
    decreases |schedule|
  {
    if schedule != [] { CoveredBound(schedule[..|schedule| - 1], n); }
  }

  /** However often a sync is interrupted, between batches or inside one, and from whatever earlier
      batch each resumption starts, once the last batch has gone out whole the peers are those of
      one uninterrupted sync. */
  lemma InterruptedSyncConverges(d: Device, bs: seq<Batch>, schedule: seq<Sending>)
    requires Resumable(schedule, |bs|) && Next(schedule) == |bs|
    ensures Synced(d, bs, schedule) == ApplyAll(d, Stretch(bs, 0, |bs|))
  {
    SyncStaysOnTrack(d, bs, schedule);
    CoveredBound(schedule, |bs|);
    assert ApplyAll(Synced(d, bs, schedule), Stretch(bs, |bs|, |bs|)) == ApplyAll(d, Stretch(bs, 0, |bs|));
  }

  /** The simplest case: batches up to `k`, then again from any `j` not after it to the end. */
  lemma ReplayedSuffixConverges(d: Device, bs: seq<Batch>, j: nat, k: nat)
    requires j <= k <= |bs|
    ensures ApplyAll(ApplyAll(d, Stretch(bs, 0, k)), Stretch(bs, j, |bs|)) == ApplyAll(d, Stretch(bs, 0, |bs|))
  {
    var head, back, tail := Stretch(bs, 0, j), Stretch(bs, j, k), Stretch(bs, j, |bs|);
    StretchSplit(bs, 0, j, k);
    StretchSplit(bs, 0, j, |bs|);
    StretchSplit(bs, j, k, |bs|);
    ApplyAppend(d, head, back);
    ApplyAppend(d, head, tail);
    AllAbsorbed(ApplyAll(d, head), back, tail);
  }

  /** An address never belongs to two peers, and after a row is applied its peer has exactly the
      row's addresses. */
  lemma PutSetsAddresses(d: Device, c: Command)
    requires c.Put? && c.accepted
    ensures c.key in Apply(d, c).psk && AllowedIps(Apply(d, c), c.key) == c.ips
    ensures forall k :: k != c.key ==> AllowedIps(Apply(d, c), k) == AllowedIps(d, k) - c.ips
    ensures c.psk == None && c.key in d.psk ==> Apply(d, c).psk[c.key] == d.psk[c.key]
  {
  }

  // ------------------------------------------------------------------ what a batch leaves

  /** The row puts its peer on the interface. */
  predicate Adds(r: Row) { r.active && r.allowed != {} && r.accepted }

  ghost predicate OwnsNothing(d: Device, k: Key) { forall ip :: OwnerAt(d, ip) != Some(k) }

  lemma RowsSnoc(d: Device, rows: seq<Row>)
    requires rows != []
    ensures var n := |rows| - 1;
            ApplyAll(d, RowCommands(rows)) == ApplyAll(ApplyAll(d, RowCommands(rows[..n])), RowCommand(rows[n]))
  {
    hide Apply, ApplyAll, RowCommand;
    ApplyAppend(d, RowCommands(rows[..|rows| - 1]), RowCommand(rows[|rows| - 1]));
  }

  /** What one row does to one peer. */
  lemma RowAt(d: Device, r: Row, k: Key)
    ensures var e := ApplyAll(d, RowCommand(r));
            && (r.key == "" || r.key != k || (r.active && !Adds(r)) ==> PeerAt(e, k) == PeerAt(d, k))
            && (r.key == k != "" && !r.active ==> PeerAt(e, k) == None && OwnsNothing(e, k))
            && (r.key == k != "" && Adds(r) ==>
                  && PeerAt(e, k).Some? && (r.psk.Some? ==> PeerAt(e, k) == Some(r.psk))
                  && (r.psk == None && PeerAt(d, k).Some? ==> PeerAt(e, k) == PeerAt(d, k))
                  && AllowedIps(e, k) == r.allowed)
            && (r.key == "" || !(r.key == k && Adds(r)) ==> OwnsNothing(d, k) ==> OwnsNothing(e, k))
  {
    var cs := RowCommand(r);
    if cs != [] {
      assert cs[..0] == [];
      assert ApplyAll(d, cs) == Apply(d, cs[0]);
      ApplyAt(d, cs[0], k, "");
      forall ip ensures OwnerAt(Apply(d, cs[0]), ip) == OwnerStep(OwnerAt(d, ip), cs[0], ip) { ApplyAt(d, cs[0], k, ip); }
    }
  }

  /** After the rows, a peer whose row is not active is not on the interface and has no address,
      unless a later row puts it back. */
  lemma {:induction false} InactiveRowIsGone(d: Device, rows: seq<Row>, i: nat)
    requires i < |rows| && rows[i].key != "" && !rows[i].active
    requires forall j :: i < j < |rows| && rows[j].key == rows[i].key ==> !Adds(rows[j])
    ensures var e := ApplyAll(d, RowCommands(rows)); PeerAt(e, rows[i].key) == None && OwnsNothing(e, rows[i].key)
    decreases |rows|
  {
    hide Apply, ApplyAll, RowCommand, RowCommands, PeerAt, OwnsNothing;
    var n := |rows| - 1;
    RowsSnoc(d, rows);
    RowAt(ApplyAll(d, RowCommands(rows[..n])), rows[n], rows[i].key);
    if i < n { InactiveRowIsGone(d, rows[..n], i); }
  }

  /** A peer whose row is active, with addresses that `wg` takes, is there with the key the last
      such row gave, unless a later row is inactive. */
  lemma {:induction false} ActiveRowIsThere(d: Device, rows: seq<Row>, i: nat)
    requires i < |rows| && rows[i].key != "" && Adds(rows[i])
    requires forall j :: i < j < |rows| && rows[j].key == rows[i].key ==> rows[j].active
    ensures var e := ApplyAll(d, RowCommands(rows));
            && PeerAt(e, rows[i].key).Some?
            && (rows[i].psk.Some? && (forall j :: i < j < |rows| && rows[j].key == rows[i].key ==> rows[j].psk == None) ==>
                  PeerAt(e, rows[i].key) == Some(rows[i].psk))
    decreases |rows|
  {
    hide Apply, ApplyAll, RowCommand, RowCommands, PeerAt, OwnsNothing, AllowedIps;
    var n := |rows| - 1;
    RowsSnoc(d, rows);
    RowAt(ApplyAll(d, RowCommands(rows[..n])), rows[n], rows[i].key);
    if i < n { ActiveRowIsThere(d, rows[..n], i); }
  }

  /** A peer that no row names is left as the removals left it. */
  lemma {:induction false} UnnamedPeerStays(d: Device, rows: seq<Row>, k: Key)
    requires forall i :: 0 <= i < |rows| ==> rows[i].key != k
    ensures PeerAt(ApplyAll(d, RowCommands(rows)), k) == PeerAt(d, k)
    decreases |rows|
  {
    if rows != [] {
      hide Apply, ApplyAll, RowCommand, RowCommands, PeerAt, OwnsNothing, AllowedIps;
      var n := |rows| - 1;
      RowsSnoc(d, rows);
      RowAt(ApplyAll(d, RowCommands(rows[..n])), rows[n], k);
      UnnamedPeerStays(d, rows[..n], k);
    }
  }

  lemma {:induction false} RemovalsAt(d: Device, removes: seq<Key>, k: Key)
    ensures PeerAt(ApplyAll(d, RemoveCommands(removes)), k) == if k in removes && k != "" then None else PeerAt(d, k)
    decreases |removes|
  {
    if removes != [] {
      hide Apply;
      var n := |removes| - 1;
      RemovalsAt(d, removes[..n], k);
      var cs := if removes[n] == "" then [] else [Remove(removes[n])];
      ApplyAppend(d, RemoveCommands(removes[..n]), cs);
      var e := ApplyAll(d, RemoveCommands(removes[..n]));
      if cs != [] {
        assert cs[..0] == [] && ApplyAll(e, cs) == Apply(e, cs[0]);
        ApplyAt(e, cs[0], k, "");
      }
      assert k in removes <==> k in removes[..n] || k == removes[n];
    }
  }

  /** What a batch leaves: its removed peers are gone unless a row puts them back, a peer it does not
      name is as before, and of the rows that name a peer the last one that does something decides. */
  lemma BatchLeaves(d: Device, b: Batch, k: Key)
    requires k != ""
    ensures var e := ApplyAll(d, Commands(b));
            && ((forall i :: 0 <= i < |b.rows| ==> b.rows[i].key != k) ==>
                  PeerAt(e, k) == if k in b.removes then None else PeerAt(d, k))
            && (forall i :: 0 <= i < |b.rows| && b.rows[i].key == k && !b.rows[i].active &&
                            (forall j :: i < j < |b.rows| && b.rows[j].key == k ==> !Adds(b.rows[j])) ==>
                  PeerAt(e, k) == None && OwnsNothing(e, k))
            && (forall i :: 0 <= i < |b.rows| && b.rows[i].key == k && Adds(b.rows[i]) &&
                            (forall j :: i < j < |b.rows| && b.rows[j].key == k ==> b.rows[j].active) ==>
                  PeerAt(e, k).Some?)
  {
    hide Apply, ApplyAll, RowCommands, RemoveCommands, PeerAt, OwnsNothing, Adds;
    var removed := ApplyAll(d, RemoveCommands(b.removes));
    ApplyAppend(d, RemoveCommands(b.removes), RowCommands(b.rows));
    RemovalsAt(d, b.removes, k);
    if forall i :: 0 <= i < |b.rows| ==> b.rows[i].key != k { UnnamedPeerStays(removed, b.rows, k); }
    var e := ApplyAll(d, Commands(b));
    forall i | 0 <= i < |b.rows| && b.rows[i].key == k && !b.rows[i].active &&
               (forall j :: i < j < |b.rows| && b.rows[j].key == k ==> !Adds(b.rows[j]))
      ensures PeerAt(e, k) == None && OwnsNothing(e, k)
    {
      InactiveRowIsGone(removed, b.rows, i);
    }
    forall i | 0 <= i < |b.rows| && b.rows[i].key == k && Adds(b.rows[i]) &&
               (forall j :: i < j < |b.rows| && b.rows[j].key == k ==> b.rows[j].active)
      ensures PeerAt(e, k).Some?
    {
      ActiveRowIsThere(removed, b.rows, i);
    }
  }

  // ------------------------------------------------------------------ the manager

  /** The watermark a batch leaves; the panel compares the peer count and the digest of the keys. */
  datatype SyncState = SyncState(generation: int, cursor: int, keys: set<Key>)

  /** What a batch reports as applied: removals, and rows whose peer is there afterwards. */
  function AppliedCount(d: Device, cs: seq<Command>): nat {
    if cs == [] then 0
    else
      var c := cs[|cs| - 1];
      AppliedCount(d, cs[..|cs| - 1]) + (if c.Remove? || c.key in ApplyAll(d, cs).psk then 1 else 0)
  }

  lemma AppliedSnoc(d: Device, cs: seq<Command>, c: Command)
    ensures ApplyAll(d, cs + [c]) == Apply(ApplyAll(d, cs), c)
    ensures AppliedCount(d, cs + [c]) ==
            AppliedCount(d, cs) + if c.Remove? || c.key in Apply(ApplyAll(d, cs), c).psk then 1 else 0
  {
    assert (cs + [c])[..|cs|] == cs;
  }

  class WireGuardManager {
    var devices: map<string, Device>
    var syncState: map<string, SyncState>

    constructor ()
      ensures devices == map[] && syncState == map[]
    {
      devices, syncState := map[], map[];
    }

    method Run(iface: string, c: Command)
      requires iface in devices
      modifies this`devices
      ensures devices == old(devices)[iface := Apply(old(devices)[iface], c)]
    {
      devices := devices[iface := Apply(devices[iface], c)];
    }

    method RunRemoves(iface: string, removes: seq<Key>) returns (applied: nat)
      requires iface in devices
      modifies this`devices
      ensures devices == old(devices)[iface := ApplyAll(old(devices)[iface], RemoveCommands(removes))]
      ensures applied == AppliedCount(old(devices)[iface], RemoveCommands(removes))
    {
      hide Apply, ApplyAll, AppliedCount;
      applied := 0;
      ghost var d := devices[iface];
      Nothing(d);
      for i := 0 to |removes|
        invariant iface in devices && devices == old(devices)[iface := ApplyAll(d, RemoveCommands(removes[..i]))]
        invariant applied == AppliedCount(d, RemoveCommands(removes[..i]))
      {
        assert removes[..i + 1][..i] == removes[..i];
        assert RemoveCommands(removes[..i]) + [] == RemoveCommands(removes[..i]);
        if removes[i] == "" { continue; }
        AppliedSnoc(d, RemoveCommands(removes[..i]), Remove(removes[i]));
        Run(iface, Remove(removes[i]));
        applied := applied + 1;
      }
      assert removes[..|removes|] == removes;
    }

    method RunRows(iface: string, rows: seq<Row>, ghost d: Device, ghost done: seq<Command>, count: nat) returns (applied: nat)
      requires iface in devices && devices[iface] == ApplyAll(d, done) && count == AppliedCount(d, done)
      modifies this`devices
      ensures devices == old(devices)[iface := ApplyAll(d, done + RowCommands(rows))]
      ensures applied == AppliedCount(d, done + RowCommands(rows))
    {
      hide Apply, ApplyAll, AppliedCount;
      applied := count;
      assert done + [] == done;
      for i := 0 to |rows|
        invariant iface in devices && devices == old(devices)[iface := ApplyAll(d, done + RowCommands(rows[..i]))]
        invariant applied == AppliedCount(d, done + RowCommands(rows[..i]))
      {
        assert rows[..i + 1][..i] == rows[..i];
        ghost var cs := RowCommands(rows[..i]);
        assert cs + [] == cs;
        var r := rows[i];
        if r.key == "" { continue; }
        if !r.active {
          AppliedSnoc(d, done + cs, Remove(r.key));
          assert (done + cs) + [Remove(r.key)] == done + (cs + [Remove(r.key)]);
          Run(iface, Remove(r.key));
          applied := applied + 1;
          continue;
        }
        if r.allowed == {} { continue; }
        var c := Put(r.key, r.allowed, r.psk, r.accepted);
        AppliedSnoc(d, done + cs, c);
        assert (done + cs) + [c] == done + (cs + [c]);
        Run(iface, c);
        if r.key in devices[iface].psk { applied := applied + 1; }
      }
      assert rows[..|rows|] == rows;
    }

    /** One batch; it fails, and changes nothing, when the interface does not exist. */
    method ApplyBatch(iface: string, generation: int, cursor: int, b: Batch) returns (applied: Option<nat>)
      modifies this
      ensures applied.Some? <==> iface in old(devices)
      ensures iface !in old(devices) ==> devices == old(devices) && syncState == old(syncState)
      ensures iface in old(devices) ==>
                && devices == old(devices)[iface := ApplyAll(old(devices)[iface], Commands(b))]
                && syncState == old(syncState)[iface := SyncState(generation, cursor, devices[iface].psk.Keys)]
                && applied == Some(AppliedCount(old(devices)[iface], Commands(b)))
    {
      hide Apply, ApplyAll, AppliedCount;
      if iface !in devices { return None; }
      ghost var d := devices[iface];
      var removed := RunRemoves(iface, b.removes);
      var count := RunRows(iface, b.rows, d, RemoveCommands(b.removes), removed);
      syncState := syncState[iface := SyncState(generation, cursor, devices[iface].psk.Keys)];
      return Some(count);
    }
  }

  lemma Nothing(d: Device)
    ensures ApplyAll(d, []) == d && AppliedCount(d, []) == 0
  {
  }
}
