/** The rows of the in-memory store, the log they stand for, and what one pass over them computes. */
module MemoryRows {
  import opened Base
  import opened BlobKeys
  import opened AtomicLog
  import opened Encodings
  import opened LogQueries
  import opened Sorting

  datatype Row = Row(key: BlobKey, sha: string, prev: string, data: Bytes, createdAt: nat)
  {
    function Blob(): Blob {
      AtomicLog.Blob(data, sha, prev, createdAt)
    }
  }

  type Rows = map<string, Row>

  /** Keys as the handlers build them: no NUL in the texts, positive generation. */
  predicate CleanKey(k: BlobKey) {
    NulFree(k) && k.generation >= 1
  }

  function KeysOf(rows: Rows): set<BlobKey> {
    set id | id in rows :: rows[id].key
  }

  ghost predicate RowsOk(H: Hash, rows: Rows) {
    && (forall id :: id in rows ==> RowOk(H, id, rows[id]))
    && Contiguous(KeysOf(rows))
  }

  ghost predicate RowOk(H: Hash, id: string, row: Row) {
    id == RowKey(row.key) && CleanKey(row.key) && row.sha == H(row.data) && row.data != []
  }

  /** A stored key is found under its own row key. */
  lemma FoundByKey(H: Hash, rows: Rows, k: BlobKey)
    requires RowsOk(H, rows)
    ensures k in KeysOf(rows) ==> RowKey(k) in rows && rows[RowKey(k)].key == k
    ensures RowKey(k) in rows ==> rows[RowKey(k)].key == k && k in KeysOf(rows)
  {
    if k in KeysOf(rows) {
      var id :| id in rows && rows[id].key == k;
      assert RowOk(H, id, rows[id]);
    }
    if RowKey(k) in rows {
      assert RowOk(H, RowKey(k), rows[RowKey(k)]);
      RowKeyInjective(rows[RowKey(k)].key, k);
    }
  }

  /** The log that the rows stand for. */
  ghost function LogOf(H: Hash, rows: Rows): (log: Log)
    requires RowsOk(H, rows)
    ensures log.Keys == KeysOf(rows)
    ensures forall id :: id in rows ==> rows[id].key in log && log[rows[id].key] == rows[id].Blob()
  {
    assert forall k :: k in KeysOf(rows) ==> RowKey(k) in rows by {
      forall k | k in KeysOf(rows) ensures RowKey(k) in rows { FoundByKey(H, rows, k); }
    }
    var log := map k | k in KeysOf(rows) :: rows[RowKey(k)].Blob();
    assert forall id :: id in rows ==> log[rows[id].key] == rows[id].Blob() by {
      forall id | id in rows ensures log[rows[id].key] == rows[id].Blob() { assert RowOk(H, id, rows[id]); }
    }
    log
  }

  /** A row kept in place keeps its log entry. */
  lemma SameEntry(H: Hash, rows: Rows, rows': Rows, k: BlobKey)
    requires RowsOk(H, rows) && RowsOk(H, rows') && k in KeysOf(rows')
    requires forall id :: id in rows' && rows'[id].key == k ==> id in rows && rows[id] == rows'[id]
    ensures k in LogOf(H, rows) && LogOf(H, rows')[k] == LogOf(H, rows)[k]
  {
    var id :| id in rows' && rows'[id].key == k;
  }

  lemma PutKeys(H: Hash, rows: Rows, row: Row)
    requires RowsOk(H, rows) && NulFree(row.key) && row.key !in KeysOf(rows)
    ensures KeysOf(rows[RowKey(row.key) := row]) == KeysOf(rows) + {row.key}
    ensures RowKey(row.key) !in rows
  {
    var rows' := rows[RowKey(row.key) := row];
    FoundByKey(H, rows, row.key);
    assert rows'[RowKey(row.key)].key == row.key;
    forall id | id in rows ensures rows[id].key in KeysOf(rows') {
      assert rows'[id] == rows[id];
    }
  }

  lemma PutRowsOk(H: Hash, rows: Rows, row: Row)
    requires RowsOk(H, rows) && RowOk(H, RowKey(row.key), row)
    requires row.key !in KeysOf(rows) && Linked(KeysOf(rows), row.key)
    ensures RowsOk(H, rows[RowKey(row.key) := row])
  {
    var rows' := rows[RowKey(row.key) := row];
    PutKeys(H, rows, row);
    forall k | k in KeysOf(rows') ensures Linked(KeysOf(rows'), k) {
      assert k in KeysOf(rows) ==> Linked(KeysOf(rows), k);
    }
    forall id | id in rows' ensures RowOk(H, id, rows'[id]) {
      assert id in rows ==> RowOk(H, id, rows[id]);
    }
  }

  /** Storing a row under its key is adding that entry to the log. */
  lemma PutRow(H: Hash, rows: Rows, row: Row)
    requires RowsOk(H, rows) && RowOk(H, RowKey(row.key), row)
    requires row.key.seqNo == HeadSeq(KeysOf(rows), row.key) + 1
    ensures RowsOk(H, rows[RowKey(row.key) := row])
    ensures LogOf(H, rows[RowKey(row.key) := row]) == LogOf(H, rows)[row.key := row.Blob()]
  {
    NextSlot(KeysOf(rows), row.key);
    PutRowsOk(H, rows, row);
    PutLog(H, rows, row);
  }

  lemma PutLog(H: Hash, rows: Rows, row: Row)
    requires RowsOk(H, rows) && NulFree(row.key) && row.key !in KeysOf(rows)
    requires RowsOk(H, rows[RowKey(row.key) := row])
    ensures LogOf(H, rows[RowKey(row.key) := row]) == LogOf(H, rows)[row.key := row.Blob()]
  {
    var rows' := rows[RowKey(row.key) := row];
    PutKeys(H, rows, row);
    forall k | k in KeysOf(rows') && k != row.key ensures LogOf(H, rows')[k] == LogOf(H, rows)[k] {
      SameEntry(H, rows, rows', k);
    }
    assert rows'[RowKey(row.key)] == row;
    WithEntry(LogOf(H, rows), LogOf(H, rows'), row.key, row.Blob());
  }

  lemma WithEntry(log: Log, log': Log, k: BlobKey, blob: Blob)
    requires log'.Keys == log.Keys + {k} && log'[k] == blob
    requires forall r :: r in log'.Keys && r != k ==> log'[r] == log[r]
    ensures log' == log[k := blob]
  {
  }

  lemma DropKeys(H: Hash, rows: Rows, rows': Rows, scope: Scope)
    requires RowsOk(H, rows)
    requires forall id :: id in rows' <==> id in rows && !scope.Covers(rows[id].key)
    requires forall id :: id in rows' ==> rows'[id] == rows[id]
    ensures forall k :: k in KeysOf(rows') <==> k in KeysOf(rows) && !scope.Covers(k)
  {
    forall k ensures k in KeysOf(rows') <==> k in KeysOf(rows) && !scope.Covers(k) {
      FoundByKey(H, rows, k);
      if k in KeysOf(rows) && !scope.Covers(k) {
        assert rows'[RowKey(k)].key == k;
      }
      if k in KeysOf(rows') {
        var id :| id in rows' && rows'[id].key == k;
        assert rows[id].key == k;
      }
    }
  }

  lemma DropRowsOk(H: Hash, rows: Rows, rows': Rows, scope: Scope)
    requires RowsOk(H, rows)
    requires forall id :: id in rows' <==> id in rows && !scope.Covers(rows[id].key)
    requires forall id :: id in rows' ==> rows'[id] == rows[id]
    ensures RowsOk(H, rows')
  {
    DropKeys(H, rows, rows', scope);
    forall k | k in KeysOf(rows') ensures Linked(KeysOf(rows'), k) {
      assert Linked(KeysOf(rows), k);
      assert scope.Covers(k.At(k.seqNo - 1)) ==> scope.Covers(k);
    }
    forall id | id in rows' ensures RowOk(H, id, rows'[id]) {
      assert RowOk(H, id, rows[id]);
    }
  }

  /** Removing the rows that a scope covers is erasing them from the log. */
  lemma DropRows(H: Hash, rows: Rows, rows': Rows, scope: Scope)
    requires RowsOk(H, rows)
    requires forall id :: id in rows' <==> id in rows && !scope.Covers(rows[id].key)
    requires forall id :: id in rows' ==> rows'[id] == rows[id]
    ensures RowsOk(H, rows') && Erase(LogOf(H, rows), scope).0 == LogOf(H, rows')
  {
    DropKeys(H, rows, rows', scope);
    DropRowsOk(H, rows, rows', scope);
    forall k | k in KeysOf(rows') ensures LogOf(H, rows')[k] == LogOf(H, rows)[k] {
      SameEntry(H, rows, rows', k);
    }
    Remaining(LogOf(H, rows), LogOf(H, rows'), scope);
  }

  lemma Remaining(log: Log, log': Log, scope: Scope)
    requires forall k :: k in log'.Keys <==> k in log.Keys && !scope.Covers(k)
    requires forall k :: k in log'.Keys ==> log'[k] == log[k]
    ensures Erase(log, scope).0 == log'
  {
    assert log' == log - Covered(log, scope);
  }

  /** The row is of k's log, at or after lo. */
  predicate Listed(row: Row, k: BlobKey, lo: int) {
    row.key.SameLog(k) && row.key.seqNo >= lo
  }

  function RowEntry(row: Row): Entry {
    EntryOf(row.key, row.Blob())
  }

  /** ids names, each once, the rows not in `todo` that belong on the page, and out holds their entries. */
  ghost predicate ListedSoFar(rows: Rows, todo: set<string>, k: BlobKey, from: int, ids: seq<string>, out: seq<Entry>) {
    && |out| == |ids|
    && (forall i, j :: 0 <= i < j < |ids| ==> ids[i] != ids[j])
    && (forall i :: 0 <= i < |ids| ==>
          ids[i] in rows && ids[i] !in todo && Listed(rows[ids[i]], k, from) && out[i] == RowEntry(rows[ids[i]]))
    && (forall id :: id in rows && id !in todo && Listed(rows[id], k, from) ==> id in ids)
  }

  lemma ListOneMore(
      rows: Rows, todo: set<string>, id: string, k: BlobKey, from: int, ids: seq<string>, out: seq<Entry>)
    requires ListedSoFar(rows, todo, k, from, ids, out) && id in todo && id in rows
    ensures if Listed(rows[id], k, from)
            then ListedSoFar(rows, todo - {id}, k, from, ids + [id], out + [RowEntry(rows[id])])
            else ListedSoFar(rows, todo - {id}, k, from, ids, out)
  {
  }

  /** The newest generation among the device's rows looked at so far, 0 if there is none. */
  ghost predicate NewestSoFar(
    rows: Rows, todo: set<string>, pseudonym: string, device: string, found: bool, newest: int)
  {
    && newest >= 0 && (!found ==> newest == 0)
    && (found ==> exists k :: k in KeysOf(rows) && k.OfDevice(pseudonym, device) && k.generation == newest)
    && (forall id :: id in rows && id !in todo && rows[id].key.OfDevice(pseudonym, device) ==>
          found && rows[id].key.generation <= newest)
  }

  lemma NewestOneMore(
      rows: Rows, todo: set<string>, id: string, pseudonym: string, device: string, found: bool, newest: int)
    requires NewestSoFar(rows, todo, pseudonym, device, found, newest)
    requires id in todo && id in rows && rows[id].key.generation >= 1
    ensures var g := rows[id].key.generation;
            if rows[id].key.OfDevice(pseudonym, device)
            then NewestSoFar(rows, todo - {id}, pseudonym, device, true, if g > newest then g else newest)
            else NewestSoFar(rows, todo - {id}, pseudonym, device, found, newest)
  {
    assert rows[id].key in KeysOf(rows);
  }

  /** Once every row has been looked at, the list is what the index is made of. */
  lemma ListAll(H: Hash, rows: Rows, k: BlobKey, from: int, ids: seq<string>, out: seq<Entry>)
    requires RowsOk(H, rows) && ListedSoFar(rows, {}, k, from, ids, out)
    ensures Gathers(LogOf(H, rows), k, from, out)
  {
    var log := LogOf(H, rows);
    forall i, j | 0 <= i < j < |out| ensures out[i].seqNo != out[j].seqNo {
      assert RowOk(H, ids[i], rows[ids[i]]) && RowOk(H, ids[j], rows[ids[j]]);
      assert rows[ids[i]].key != rows[ids[j]].key;
    }
    forall e | e in out
      ensures e.seqNo >= from && k.At(e.seqNo) in log && e == EntryOf(k.At(e.seqNo), log[k.At(e.seqNo)])
    {
      var i :| 0 <= i < |out| && e == out[i];
      assert rows[ids[i]].key == k.At(e.seqNo);
    }
    forall n | n >= from && k.At(n) in log ensures EntryOf(k.At(n), log[k.At(n)]) in out {
      var id :| id in rows && rows[id].key == k.At(n);
      assert Listed(rows[id], k, from);
      var i :| 0 <= i < |ids| && ids[i] == id;
      assert out[i] == EntryOf(k.At(n), log[k.At(n)]);
    }
  }


  // ---- The deletes' loop ---------------------------------------------------------------------------

  /** The keys of the covered rows not in todo. */
  function Dropped(rows: Rows, todo: set<string>, scope: Scope): set<BlobKey> {
    set id | id in rows && id !in todo && scope.Covers(rows[id].key) :: rows[id].key
  }

  lemma DropOne(H: Hash, rows: Rows, todo: set<string>, id: string, scope: Scope)
    requires RowsOk(H, rows) && id in rows && id in todo
    ensures rows[id].key !in Dropped(rows, todo, scope)
    ensures Dropped(rows, todo - {id}, scope) ==
              if scope.Covers(rows[id].key) then Dropped(rows, todo, scope) + {rows[id].key} else Dropped(rows, todo, scope)
  {
    forall other | other in rows && other != id ensures rows[other].key != rows[id].key {
      assert RowOk(H, id, rows[id]) && RowOk(H, other, rows[other]);
    }
  }

  /** The covered rows not in todo are gone from rows0, and nothing else is. */
  ghost predicate Kept(rows0: Rows, rows: Rows, todo: set<string>, scope: Scope) {
    && (forall id :: id in rows <==> id in rows0 && (id in todo || !scope.Covers(rows0[id].key)))
    && (forall id :: id in rows ==> rows[id] == rows0[id])
  }

  /** Where the loop stands: n rows are gone, those covered and not in todo. */
  ghost predicate Dropping(rows0: Rows, rows: Rows, todo: set<string>, scope: Scope, n: nat) {
    Kept(rows0, rows, todo, scope) && n == |Dropped(rows0, todo, scope)|
  }

  lemma DropStep(H: Hash, rows0: Rows, rows: Rows, todo: set<string>, id: string, scope: Scope, n: nat)
    requires RowsOk(H, rows0) && id in todo && id in rows0 && Dropping(rows0, rows, todo, scope, n)
    ensures id in rows && rows[id] == rows0[id]
    ensures if scope.Covers(rows[id].key) then Dropping(rows0, rows - {id}, todo - {id}, scope, n + 1)
            else Dropping(rows0, rows, todo - {id}, scope, n)
  {
    DropOne(H, rows0, todo, id, scope);
  }

  lemma DroppedIsCovered(H: Hash, rows: Rows, scope: Scope)
    requires RowsOk(H, rows)
    ensures Dropped(rows, {}, scope) == Covered(LogOf(H, rows), scope)
  {
  }

  // ---- Manifest's loop -----------------------------------------------------------------------------

  /** The rows are the entries of the log, one row each. */
  ghost predicate Shows(rows: Rows, log: Log) {
    && (forall id :: id in rows ==> NulFree(rows[id].key) && rows[id].key in log && log[rows[id].key] == rows[id].Blob())
    && (forall i, j :: i in rows && j in rows && i != j ==> rows[i].key != rows[j].key)
    && (forall k :: k in log ==> HasRow(rows, k))
  }

  ghost predicate HasRow(rows: Rows, k: BlobKey) {
    exists id :: id in rows && rows[id].key == k
  }

  lemma RowsShowLog(H: Hash, rows: Rows)
    requires RowsOk(H, rows)
    ensures Shows(rows, LogOf(H, rows))
  {
    forall id | id in rows ensures id == RowKey(rows[id].key) && NulFree(rows[id].key) {
      assert RowOk(H, id, rows[id]);
    }
    forall k | k in LogOf(H, rows) ensures HasRow(rows, k) {
      FoundByKey(H, rows, k);
    }
  }

  /** What Manifest keeps for each (device, generation). */
  datatype Agg = Agg(head: Option<Row>, total: nat, updatedAt: nat)

  function GroupOf(row: Row): string {
    GroupKey(row.key.device, row.key.generation)
  }

  /** The entries of k's log among the rows not in todo. */
  function Visited(rows: Rows, todo: set<string>, k: BlobKey): set<BlobKey> {
    set id | id in rows && id !in todo && rows[id].key.SameLog(k) :: rows[id].key
  }

  ghost predicate Describes(log: Log, keys: set<BlobKey>, a: Agg) {
    && keys <= log.Keys && a.head.Some?
    && var head := a.head.value;
    && head.key in keys && log[head.key] == head.Blob()
    && (forall k :: k in keys ==> k.seqNo <= head.key.seqNo)
    && a.total == TotalBytes(log, keys)
    && (exists k :: k in keys && log[k].createdAt == a.updatedAt)
    && (forall k :: k in keys ==> log[k].createdAt <= a.updatedAt)
  }

  /** One turn of the loop, for a row of the account. */
  function Bump(aggs: map<string, Agg>, r: Row): Agg {
    Bumped(if GroupOf(r) in aggs then aggs[GroupOf(r)] else Agg(None, 0, 0), r)
  }

  function Bumped(a: Agg, r: Row): Agg {
    Agg(if a.head.None? || r.key.seqNo > a.head.value.key.seqNo then Some(r) else a.head,
        a.total + |r.data|,
        if r.createdAt > a.updatedAt then r.createdAt else a.updatedAt)
  }

  /** The aggregate under g is that of one log of the account, over the rows visited so far. */
  ghost predicate AggOk(rows: Rows, log: Log, todo: set<string>, pseudonym: string, g: string, a: Agg)
  {
    && a.head.Some? && g == GroupOf(a.head.value) && a.head.value.key.pseudonym == pseudonym
    && NulFree(a.head.value.key)
    && Describes(log, Visited(rows, todo, a.head.value.key), a)
  }

  ghost predicate AllOk(rows: Rows, log: Log, todo: set<string>, pseudonym: string, aggs: map<string, Agg>) {
    forall g {:trigger AggOk(rows, log, todo, pseudonym, g, aggs[g])} ::
      g in aggs ==> AggOk(rows, log, todo, pseudonym, g, aggs[g])
  }

  ghost predicate Aggregated(rows: Rows, log: Log, todo: set<string>, pseudonym: string, aggs: map<string, Agg>)
  {
    && AllOk(rows, log, todo, pseudonym, aggs)
    && (forall id {:trigger Grouped(rows, aggs, pseudonym, id)} ::
          id in rows && id !in todo ==> Grouped(rows, aggs, pseudonym, id))
  }

  ghost predicate Grouped(rows: Rows, aggs: map<string, Agg>, pseudonym: string, id: string)
    requires id in rows
  {
    rows[id].key.pseudonym == pseudonym ==> GroupOf(rows[id]) in aggs
  }

  /** An aggregate stays right when one more entry of its log is counted in. */
  lemma BumpDescribes(log: Log, keys: set<BlobKey>, a: Agg, r: Row)
    requires r.key in log && log[r.key] == r.Blob() && r.key !in keys
    requires if a.head.None? then keys == {} && a.total == 0 && a.updatedAt == 0 else Describes(log, keys, a)
    ensures Describes(log, keys + {r.key}, Bumped(a, r))
  {
    TotalBytesAdd(log, keys, r.key);
    assert r.key in keys + {r.key};
    if a.head.Some? {
      var k :| k in keys && log[k].createdAt == a.updatedAt;
      assert k in keys + {r.key};
    }
  }

  lemma VisitOne(rows: Rows, todo: set<string>, id: string, k: BlobKey)
    requires forall i, j :: i in rows && j in rows && i != j ==> rows[i].key != rows[j].key
    requires id in rows && id in todo
    ensures rows[id].key !in Visited(rows, todo, k)
    ensures Visited(rows, todo - {id}, k) ==
              if rows[id].key.SameLog(k) then Visited(rows, todo, k) + {rows[id].key} else Visited(rows, todo, k)
  {
  }

  lemma SameLogSameVisits(rows: Rows, todo: set<string>, k: BlobKey, l: BlobKey)
    requires k.SameLog(l)
    ensures Visited(rows, todo, k) == Visited(rows, todo, l)
  {
  }

  /** Rows of one account with the same group key are of one log. */
  lemma GroupsAreLogs(a: BlobKey, b: BlobKey)
    requires NulFree(a) && NulFree(b) && a.pseudonym == b.pseudonym
    ensures GroupKey(a.device, a.generation) == GroupKey(b.device, b.generation) <==> a.SameLog(b)
  {
    if GroupKey(a.device, a.generation) == GroupKey(b.device, b.generation) {
      GroupKeyInjective(a.device, a.generation, b.device, b.generation);
    }
  }

  lemma BumpKnownGroup(rows: Rows, log: Log, todo: set<string>, id: string, pseudonym: string, a: Agg)
    requires Shows(rows, log) && id in rows && id in todo && rows[id].key.pseudonym == pseudonym
    requires AggOk(rows, log, todo, pseudonym, GroupOf(rows[id]), a)
    ensures Describes(log, Visited(rows, todo, rows[id].key) + {rows[id].key}, Bumped(a, rows[id]))
  {
    var r := rows[id];
    GroupsAreLogs(r.key, a.head.value.key);
    SameLogSameVisits(rows, todo, r.key, a.head.value.key);
    VisitOne(rows, todo, id, r.key);
    BumpDescribes(log, Visited(rows, todo, r.key), a, r);
  }

  lemma BumpNewGroup(rows: Rows, log: Log, todo: set<string>, id: string, pseudonym: string, aggs: map<string, Agg>)
    requires Shows(rows, log) && id in rows && id in todo && rows[id].key.pseudonym == pseudonym
    requires Aggregated(rows, log, todo, pseudonym, aggs) && GroupOf(rows[id]) !in aggs
    ensures Describes(log, Visited(rows, todo, rows[id].key) + {rows[id].key}, Bumped(Agg(None, 0, 0), rows[id]))
  {
    NothingVisited(rows, todo, pseudonym, aggs, rows[id]);
    BumpDescribes(log, Visited(rows, todo, rows[id].key), Agg(None, 0, 0), rows[id]);
  }

  lemma BumpOwnGroup(rows: Rows, log: Log, todo: set<string>, id: string, pseudonym: string, aggs: map<string, Agg>)
    requires Shows(rows, log) && id in rows && id in todo && rows[id].key.pseudonym == pseudonym
    requires Aggregated(rows, log, todo, pseudonym, aggs)
    ensures AggOk(rows, log, todo - {id}, pseudonym, GroupOf(rows[id]), Bump(aggs, rows[id]))
  {
    var r := rows[id];
    var g := GroupOf(r);
    if g in aggs {
      assert AggOk(rows, log, todo, pseudonym, g, aggs[g]);
      GroupsAreLogs(r.key, aggs[g].head.value.key);
      BumpKnownGroup(rows, log, todo, id, pseudonym, aggs[g]);
    } else {
      BumpNewGroup(rows, log, todo, id, pseudonym, aggs);
    }
    VisitOne(rows, todo, id, r.key);
    SameLogSameVisits(rows, todo - {id}, r.key, Bump(aggs, r).head.value.key);
  }

  lemma NothingVisited(rows: Rows, todo: set<string>, pseudonym: string, aggs: map<string, Agg>, r: Row)
    requires r.key.pseudonym == pseudonym && GroupOf(r) !in aggs
    requires forall id {:trigger Grouped(rows, aggs, pseudonym, id)} ::
               id in rows && id !in todo ==> Grouped(rows, aggs, pseudonym, id)
    ensures Visited(rows, todo, r.key) == {}
  {
    forall id | id in rows && id !in todo ensures !rows[id].key.SameLog(r.key) {
      assert Grouped(rows, aggs, pseudonym, id);
    }
  }

  lemma OtherGroups(rows: Rows, log: Log, todo: set<string>, id: string, pseudonym: string, g: string, a: Agg)
    requires Shows(rows, log) && id in rows && id in todo && AggOk(rows, log, todo, pseudonym, g, a)
    requires rows[id].key.pseudonym != pseudonym || g != GroupOf(rows[id])
    ensures AggOk(rows, log, todo - {id}, pseudonym, g, a)
  {
    if rows[id].key.pseudonym == pseudonym {
      GroupsAreLogs(rows[id].key, a.head.value.key);
    }
    VisitOne(rows, todo, id, a.head.value.key);
  }

  lemma OthersOk(rows: Rows, log: Log, todo: set<string>, id: string, pseudonym: string, aggs: map<string, Agg>)
    requires Shows(rows, log) && id in rows && id in todo && AllOk(rows, log, todo, pseudonym, aggs)
    requires rows[id].key.pseudonym != pseudonym || GroupOf(rows[id]) !in aggs
    ensures AllOk(rows, log, todo - {id}, pseudonym, aggs)
  {
    forall g | g in aggs ensures AggOk(rows, log, todo - {id}, pseudonym, g, aggs[g]) {
      assert AggOk(rows, log, todo, pseudonym, g, aggs[g]);
      OtherGroups(rows, log, todo, id, pseudonym, g, aggs[g]);
    }
  }

  lemma AllOkWithout(rows: Rows, log: Log, todo: set<string>, pseudonym: string, aggs: map<string, Agg>, g: string)
    requires AllOk(rows, log, todo, pseudonym, aggs)
    ensures AllOk(rows, log, todo, pseudonym, aggs - {g})
  {
    forall h | h in aggs - {g} ensures AggOk(rows, log, todo, pseudonym, h, (aggs - {g})[h]) {
      assert AggOk(rows, log, todo, pseudonym, h, aggs[h]);
    }
  }

  lemma AllOkWith(rows: Rows, log: Log, todo: set<string>, pseudonym: string, aggs: map<string, Agg>, g: string, a: Agg)
    requires AllOk(rows, log, todo, pseudonym, aggs - {g}) && AggOk(rows, log, todo, pseudonym, g, a)
    ensures AllOk(rows, log, todo, pseudonym, aggs[g := a])
  {
    var aggs' := aggs[g := a];
    forall h | h in aggs' ensures AggOk(rows, log, todo, pseudonym, h, aggs'[h]) {
      if h != g {
        assert AggOk(rows, log, todo, pseudonym, h, (aggs - {g})[h]);
      }
    }
  }

  lemma AggStep(rows: Rows, log: Log, todo: set<string>, id: string, pseudonym: string, aggs: map<string, Agg>)
    requires Shows(rows, log) && id in rows && id in todo && Aggregated(rows, log, todo, pseudonym, aggs)
    ensures Aggregated(rows, log, todo - {id}, pseudonym,
              if rows[id].key.pseudonym == pseudonym then aggs[GroupOf(rows[id]) := Bump(aggs, rows[id])] else aggs)
  {
    forall other | other in rows && other !in todo ensures Grouped(rows, aggs, pseudonym, other) {
    }
    if rows[id].key.pseudonym == pseudonym {
      var g := GroupOf(rows[id]);
      AllOkWithout(rows, log, todo, pseudonym, aggs, g);
      OthersOk(rows, log, todo, id, pseudonym, aggs - {g});
      BumpOwnGroup(rows, log, todo, id, pseudonym, aggs);
      AllOkWith(rows, log, todo - {id}, pseudonym, aggs, g, Bump(aggs, rows[id]));
    } else {
      OthersOk(rows, log, todo, id, pseudonym, aggs);
    }
  }

  function SummaryOf(a: Agg): Summary
    requires a.head.Some?
  {
    var head := a.head.value;
    Summary(head.key.device, head.key.generation, head.key.seqNo, head.sha, a.total, a.updatedAt)
  }

  /** gs names, each once, the groups not in `todo`, and out holds their summaries. */
  ghost predicate SummedSoFar(aggs: map<string, Agg>, todo: set<string>, gs: seq<string>, out: seq<Summary>) {
    && |out| == |gs|
    && (forall i, j :: 0 <= i < j < |gs| ==> gs[i] != gs[j])
    && (forall i :: 0 <= i < |gs| ==>
          gs[i] in aggs && gs[i] !in todo && aggs[gs[i]].head.Some? && out[i] == SummaryOf(aggs[gs[i]]))
    && (forall g :: g in aggs && g !in todo ==> g in gs)
  }

  lemma AggSummarizes(rows: Rows, log: Log, pseudonym: string, g: string, a: Agg)
    requires Shows(rows, log) && AggOk(rows, log, {}, pseudonym, g, a)
    ensures Summarizes(log, pseudonym, SummaryOf(a))
    ensures g == GroupKey(SummaryOf(a).device, SummaryOf(a).generation)
  {
    var head := a.head.value.key;
    assert head == BlobKey(pseudonym, head.device, head.generation, head.seqNo);
    assert Group(log, pseudonym, head.device, head.generation) == Visited(rows, {}, head);
  }

  lemma SummariesComparable(a: Summary, b: Summary)
    ensures SummaryLess(a, b) || SummaryLess(b, a) || (a.device == b.device && a.generation == b.generation)
  {
    StringLessTotal(a.device, b.device);
  }

  /** The summaries of all groups, sorted, are the manifest. */
  lemma SortedIsManifest(rows: Rows, log: Log, pseudonym: string, aggs: map<string, Agg>, gs: seq<string>, out: seq<Summary>)
    requires Shows(rows, log) && Aggregated(rows, log, {}, pseudonym, aggs) && SummedSoFar(aggs, {}, gs, out)
    ensures IsManifest(log, pseudonym, Sort(SummaryLess, out))
  {
    var sorted := Sort(SummaryLess, out);
    SummariesInOrder(rows, log, pseudonym, aggs, gs, out);
    SameMembers(sorted, out);
    forall s | s in sorted ensures Summarizes(log, pseudonym, s) {
      var i :| 0 <= i < |out| && s == out[i];
      assert AggOk(rows, log, {}, pseudonym, gs[i], aggs[gs[i]]);
      AggSummarizes(rows, log, pseudonym, gs[i], aggs[gs[i]]);
    }
    forall k | k in log && k.pseudonym == pseudonym ensures Reported(sorted, k.device, k.generation) {
      EveryLogReported(rows, log, pseudonym, aggs, gs, out, k);
      var s :| s in out && s.device == k.device && s.generation == k.generation;
      assert s in sorted;
    }
  }

  lemma SummariesInOrder(rows: Rows, log: Log, pseudonym: string, aggs: map<string, Agg>, gs: seq<string>, out: seq<Summary>)
    requires Shows(rows, log) && Aggregated(rows, log, {}, pseudonym, aggs) && SummedSoFar(aggs, {}, gs, out)
    ensures Increasing(SummaryLess, Sort(SummaryLess, out))
  {
    SummaryLessOrder();
    forall i, j | 0 <= i < j < |out| ensures SummaryLess(out[i], out[j]) || SummaryLess(out[j], out[i]) {
      assert AggOk(rows, log, {}, pseudonym, gs[i], aggs[gs[i]]);
      AggSummarizes(rows, log, pseudonym, gs[i], aggs[gs[i]]);
      assert AggOk(rows, log, {}, pseudonym, gs[j], aggs[gs[j]]);
      AggSummarizes(rows, log, pseudonym, gs[j], aggs[gs[j]]);
      SummariesComparable(out[i], out[j]);
    }
    SortIncreasing(SummaryLess, out);
  }

  lemma EveryLogReported(
      rows: Rows, log: Log, pseudonym: string, aggs: map<string, Agg>, gs: seq<string>, out: seq<Summary>, k: BlobKey)
    requires Shows(rows, log) && Aggregated(rows, log, {}, pseudonym, aggs) && SummedSoFar(aggs, {}, gs, out)
    requires k in log && k.pseudonym == pseudonym
    ensures Reported(out, k.device, k.generation)
  {
    var id :| id in rows && rows[id].key == k;
    var g := GroupOf(rows[id]);
    assert Grouped(rows, aggs, pseudonym, id);
    assert AggOk(rows, log, {}, pseudonym, g, aggs[g]);
    GroupsAreLogs(k, aggs[g].head.value.key);
    var i :| 0 <= i < |gs| && gs[i] == g;
    assert out[i] in out;
  }
}
