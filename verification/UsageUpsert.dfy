/** Batched writes of hourly usage: rows with the same key are merged first, because one insert
    statement may not touch a row twice, and the rest goes out in chunks. */
module UsageUpsert {
  import opened Base

  const CHUNK: nat := 400

  /** The conflict columns of a row, and its traffic. */
  datatype Row<K> = Row(key: K, used: int)

  type Table<K> = map<K, int>

  function UsedBy<K>(t: Table<K>, k: K): int { if k in t then t[k] else 0 }

  /** Adding one row to the table, inserting it when its key is new. */
  function AddRow<K>(t: Table<K>, r: Row<K>): Table<K> { t[r.key := UsedBy(t, r.key) + r.used] }

  function AddRows<K>(t: Table<K>, rows: seq<Row<K>>): Table<K> {
    if rows == [] then t else AddRow(AddRows(t, rows[..|rows| - 1]), rows[|rows| - 1])
  }

  predicate Lists<K(==)>(rows: seq<Row<K>>, k: K) { exists i :: 0 <= i < |rows| && rows[i].key == k }

  ghost predicate DistinctKeys<K>(rows: seq<Row<K>>) {
    forall i, j :: 0 <= i < j < |rows| ==> rows[i].key != rows[j].key
  }

  function Total<K(==)>(rows: seq<Row<K>>, k: K): int {
    if rows == [] then 0
    else Total(rows[..|rows| - 1], k) + (if rows[|rows| - 1].key == k then rows[|rows| - 1].used else 0)
  }

  // ------------------------------------------------------------------ merging

  /** A row joins the earlier row of its key, or goes to the end. */
  function Joined<K(==)>(rows: seq<Row<K>>, r: Row<K>): seq<Row<K>> {
    if rows == [] then [r]
    else if rows[0].key == r.key then [rows[0].(used := rows[0].used + r.used)] + rows[1..]
    else [rows[0]] + Joined(rows[1..], r)
  }

  function Coalesced<K(==)>(rows: seq<Row<K>>): seq<Row<K>> {
    if rows == [] then [] else Joined(Coalesced(rows[..|rows| - 1]), rows[|rows| - 1])
  }

  lemma {:induction false} TotalFront<K>(r: Row<K>, rows: seq<Row<K>>, k: K)
    ensures Total([r] + rows, k) == Total(rows, k) + if r.key == k then r.used else 0
    decreases |rows|
  {
    if rows != [] {
      var all := [r] + rows;
      assert all[..|all| - 1] == [r] + rows[..|rows| - 1];
      TotalFront(r, rows[..|rows| - 1], k);
    }
  }

  lemma {:induction false} JoinedKeeps<K(!new)>(rows: seq<Row<K>>, r: Row<K>, k: K)
    ensures Total(Joined(rows, r), k) == Total(rows, k) + if r.key == k then r.used else 0
    ensures Lists(Joined(rows, r), k) <==> Lists(rows, k) || k == r.key
    decreases |rows|
  {
    if rows == [] {
      assert [r][..0] == [];
      assert [r][0].key == r.key;
    } else {
      assert rows == [rows[0]] + rows[1..];
      TotalFront(rows[0], rows[1..], k);
      ListsFront(rows[0], rows[1..], k);
      if rows[0].key == r.key {
        var first := rows[0].(used := rows[0].used + r.used);
        TotalFront(first, rows[1..], k);
        ListsFront(first, rows[1..], k);
      } else {
        JoinedKeeps(rows[1..], r, k);
        TotalFront(rows[0], Joined(rows[1..], r), k);
        ListsFront(rows[0], Joined(rows[1..], r), k);
      }
    }
  }

  lemma ListsFront<K>(r: Row<K>, rows: seq<Row<K>>, k: K)
    ensures Lists([r] + rows, k) <==> r.key == k || Lists(rows, k)
  {
    var all := [r] + rows;
    assert all[0] == r;
    if Lists(rows, k) {
      var i :| 0 <= i < |rows| && rows[i].key == k;
      assert all[i + 1].key == k;
    }
    if Lists(all, k) {
      var i :| 0 <= i < |all| && all[i].key == k;
      if i > 0 { assert rows[i - 1].key == k; }
    }
  }

  lemma {:induction false} JoinedDistinct<K(!new)>(rows: seq<Row<K>>, r: Row<K>)
    requires DistinctKeys(rows)
    ensures DistinctKeys(Joined(rows, r))
    decreases |rows|
  {
    if rows != [] && rows[0].key != r.key {
      JoinedDistinct(rows[1..], r);
      var rest := Joined(rows[1..], r);
      forall i | 0 <= i < |rest| ensures rest[i].key != rows[0].key {
        JoinedKeeps(rows[1..], r, rest[i].key);
        assert Lists(rest, rest[i].key);
      }
    }
  }

  /** Merging leaves each key once and keeps every key's total. */
  lemma {:induction false} CoalescedKeeps<K(!new)>(rows: seq<Row<K>>, k: K)
    ensures DistinctKeys(Coalesced(rows))
    ensures Total(Coalesced(rows), k) == Total(rows, k)
    ensures Lists(Coalesced(rows), k) <==> Lists(rows, k)
    decreases |rows|
  {
    if rows != [] {
      var n := |rows| - 1;
      var before := Coalesced(rows[..n]);
      CoalescedKeeps(rows[..n], k);
      JoinedDistinct(before, rows[n]);
      JoinedKeeps(before, rows[n], k);
      assert Lists(rows, k) <==> Lists(rows[..n], k) || rows[n].key == k by { ListsBack(rows, k); }
    }
  }

  lemma ListsBack<K>(rows: seq<Row<K>>, k: K)
    requires rows != []
    ensures Lists(rows, k) <==> Lists(rows[..|rows| - 1], k) || rows[|rows| - 1].key == k
  {
    var n := |rows| - 1;
    if Lists(rows[..n], k) {
      var i :| 0 <= i < n && rows[..n][i].key == k;
      assert rows[i].key == k;
    }
    if Lists(rows, k) {
      var i :| 0 <= i < |rows| && rows[i].key == k;
      if i < n { assert rows[..n][i].key == k; }
    }
  }

  // ------------------------------------------------------------------ adding up

  lemma {:induction false} AddRowsAt<K(!new)>(t: Table<K>, rows: seq<Row<K>>, k: K)
    ensures UsedBy(AddRows(t, rows), k) == UsedBy(t, k) + Total(rows, k)
    ensures k in AddRows(t, rows) <==> k in t || Lists(rows, k)
    decreases |rows|
  {
    if rows != [] {
      AddRowsAt(t, rows[..|rows| - 1], k);
      ListsBack(rows, k);
    }
  }

  /** Adding the merged rows is adding the rows one by one. */
  lemma MergingPreservesSums<K(!new)>(t: Table<K>, rows: seq<Row<K>>)
    ensures AddRows(t, Coalesced(rows)) == AddRows(t, rows)
  {
    var a, b := AddRows(t, Coalesced(rows)), AddRows(t, rows);
    forall k ensures (k in a <==> k in b) && UsedBy(a, k) == UsedBy(b, k) {
      AddRowsAt(t, Coalesced(rows), k);
      AddRowsAt(t, rows, k);
      CoalescedKeeps(rows, k);
    }
    assert forall k :: k in a ==> k in b && UsedBy(a, k) == a[k] && UsedBy(b, k) == b[k];
  }

  lemma {:induction false} AddRowsAppend<K>(t: Table<K>, a: seq<Row<K>>, b: seq<Row<K>>)
    ensures AddRows(t, a + b) == AddRows(AddRows(t, a), b)
    decreases |b|
  {
    if b == [] {
      assert a + b == a;
    } else {
      assert (a + b)[..|a + b| - 1] == a + b[..|b| - 1];
      AddRowsAppend(t, a, b[..|b| - 1]);
    }
  }

  // ------------------------------------------------------------------ the loops

  /** The merged rows in order of first appearance, with the position of each key. */
  method CoalesceRows<K(==, !new)>(rows: seq<Row<K>>) returns (out: seq<Row<K>>)
    ensures out == Coalesced(rows)
  {
    out := [];
    var at: map<K, nat> := map[];
    for i := 0 to |rows|
      invariant out == Coalesced(rows[..i]) && Indexed(out, at)
    {
      assert rows[..i + 1][..i] == rows[..i];
      var r := rows[i];
      if r.key in at {
        var j := at[r.key];
        JoinedAt(out, r, j);
        out := out[j := out[j].(used := out[j].used + r.used)];
      } else {
        JoinedAt(out, r, |out|);
        at := at[r.key := |out|];
        out := out + [r];
      }
    }
    assert rows[..|rows|] == rows;
  }

  ghost predicate Indexed<K(!new)>(rows: seq<Row<K>>, at: map<K, nat>) {
    && (forall j :: 0 <= j < |rows| ==> rows[j].key in at && at[rows[j].key] == j)
    && (forall k :: k in at ==> at[k] < |rows| && rows[at[k]].key == k)
  }

  lemma {:induction false} JoinedAt<K>(rows: seq<Row<K>>, r: Row<K>, j: nat)
    requires j <= |rows| && forall m :: 0 <= m < j ==> rows[m].key != r.key
    requires j < |rows| ==> rows[j].key == r.key
    ensures Joined(rows, r) == if j < |rows| then rows[j := rows[j].(used := rows[j].used + r.used)] else rows + [r]
    decreases |rows|
  {
    if rows != [] && j > 0 {
      assert forall m :: 0 <= m < |rows[1..]| ==> rows[1..][m] == rows[m + 1];
      JoinedAt(rows[1..], r, j - 1);
    }
  }

  lemma AddNone<K>(t: Table<K>)
    ensures AddRows(t, []) == t
  {
  }

  /** No chunk of the merged rows holds a key twice. */
  lemma ChunkDistinct<K(!new)>(rows: seq<Row<K>>, low: nat, high: nat)
    requires low <= high <= |Coalesced(rows)|
    ensures DistinctKeys(Coalesced(rows)[low..high])
  {
    if rows != [] { CoalescedKeeps(rows, rows[0].key); }
  }

  class UsageTable<K(==, !new)> {
    var rows: Table<K>

    constructor ()
      ensures rows == map[]
    {
      rows := map[];
    }

    /** One chunk; its keys must differ, as the database demands. */
    method Execute(chunk: seq<Row<K>>)
      requires DistinctKeys(chunk) && |chunk| <= CHUNK
      modifies this
      ensures rows == AddRows(old(rows), chunk)
    {
      for i := 0 to |chunk|
        invariant rows == AddRows(old(rows), chunk[..i])
      {
        assert chunk[..i + 1][..i] == chunk[..i];
        var r := chunk[i];
        rows := rows[r.key := if r.key in rows then rows[r.key] + r.used else r.used];
      }
      assert chunk[..|chunk|] == chunk;
    }

    /** The whole write: no chunk is ever rejected, and the table ends as if every row had been
        added on its own, in order, repeated keys included. */
    method PgUpsert(params: seq<Row<K>>)
      modifies this
      ensures rows == AddRows(old(rows), params)
    {
      hide AddRows, Coalesced, DistinctKeys;
      var merged := CoalesceRows(params);
      MergingPreservesSums(rows, params);
      ghost var before := rows;
      assert merged[..0] == [];
      AddNone(before);
      var i := 0;
      while i < |merged|
        invariant i <= |merged| && rows == AddRows(before, merged[..i])
        decreases |merged| - i
      {
        var end := Min(i + CHUNK, |merged|);
        AddRowsAppend(before, merged[..i], merged[i..end]);
        assert merged[..i] + merged[i..end] == merged[..end];
        ChunkDistinct(params, i, end);
        Execute(merged[i..end]);
        i := end;
      }
      assert merged[..|merged|] == merged;
    }
  }
}
