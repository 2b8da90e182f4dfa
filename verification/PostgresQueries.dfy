/**
 * The two listing queries of the PostgreSQL store, evaluated as SQL says on the rows of blob_log in
 * whatever order a scan yields them, and what they come to.
 */
module PostgresQueries {
  import opened Base
  import opened BlobKeys
  import opened AtomicLog
  import opened Sorting
  import opened LogQueries
  import opened PostgresModel
  import opened PostgresIntegrity
  import opened PostgresReads
  import opened PostgresRefinement

  type LogTable = map<BlobKey, LogRow>

  /** scan yields the rows that meet `where`, each once, in some order. */
  ghost predicate ScansWhere(table: LogTable, where: BlobKey -> bool, scan: seq<BlobKey>) {
    && (forall i, j :: 0 <= i < j < |scan| ==> scan[i] != scan[j])
    && (forall k :: k in scan <==> k in table && where(k))
  }

  function OfPseudonym(pseudonym: string): BlobKey -> bool {
    (k: BlobKey) => k.pseudonym == pseudonym
  }

  // ---- ORDER BY device_id, generation, seq DESC -------------------------------------------------------

  predicate KeyLess(a: BlobKey, b: BlobKey) {
    if a.device != b.device then StringLess(a.device, b.device)
    else if a.generation != b.generation then a.generation < b.generation
    else a.seqNo > b.seqNo
  }

  predicate SamePartition(a: BlobKey, b: BlobKey) {
    a.device == b.device && a.generation == b.generation
  }

  lemma KeyLessOrder()
    ensures StrictOrder(KeyLess)
  {
    forall a: BlobKey, b: BlobKey, c: BlobKey | KeyLess(a, b) && KeyLess(b, c) ensures KeyLess(a, c) {
      if a.device != b.device && b.device != c.device {
        StringLessTransitive(a.device, b.device, c.device);
        StringLessIrreflexive(a.device);
      }
    }
  }

  /** Rows of one partition are next to each other. */
  lemma Sandwiched(a: BlobKey, b: BlobKey, c: BlobKey)
    requires KeyLess(a, b) && KeyLess(b, c) && SamePartition(a, c)
    ensures SamePartition(b, c)
  {
    if b.device != c.device {
      StringLessTransitive(a.device, b.device, c.device);
      StringLessIrreflexive(a.device);
    }
  }

  lemma ScanSorted(table: LogTable, pseudonym: string, scan: seq<BlobKey>)
    requires ScansWhere(table, OfPseudonym(pseudonym), scan)
    ensures Increasing(KeyLess, Sort(KeyLess, scan))
    ensures forall k :: k in Sort(KeyLess, scan) <==> k in scan
  {
    KeyLessOrder();
    forall i, j | 0 <= i < j < |scan| ensures KeyLess(scan[i], scan[j]) || KeyLess(scan[j], scan[i]) {
      assert scan[i] in scan && scan[j] in scan && scan[i] != scan[j];
      StringLessTotal(scan[i].device, scan[j].device);
    }
    SortIncreasing(KeyLess, scan);
    SameMembers(Sort(KeyLess, scan), scan);
  }

  // ---- DISTINCT ON (device_id, generation) ----------------------------------------------------------

  /** The first row of every run of rows of one partition. */
  function DistinctOn(rows: seq<BlobKey>): seq<BlobKey> {
    if rows == [] then []
    else
      var n := |rows| - 1;
      DistinctOn(rows[..n]) + if n > 0 && SamePartition(rows[n - 1], rows[n]) then [] else [rows[n]]
  }

  /** k comes before all other rows of its partition, so it is the newest. */
  ghost predicate Leads(rows: seq<BlobKey>, k: BlobKey) {
    k in rows && forall r {:trigger r in rows} :: r in rows && SamePartition(r, k) ==> r == k || KeyLess(k, r)
  }

  predicate PartitionLess(a: BlobKey, b: BlobKey) {
    KeyLess(a, b) && !SamePartition(a, b)
  }

  ghost predicate Represented(kept: seq<BlobKey>, k: BlobKey) {
    exists r {:trigger r in kept} :: r in kept && SamePartition(r, k)
  }

  /** kept are the leading rows of all partitions, in order. */
  ghost predicate Picks(rows: seq<BlobKey>, kept: seq<BlobKey>) {
    && (forall k {:trigger Leads(rows, k)} :: k in kept ==> Leads(rows, k))
    && (forall k {:trigger Represented(kept, k)} :: k in rows ==> Represented(kept, k))
    && Increasing(PartitionLess, kept)
  }

  lemma LastIsAfter(init: seq<BlobKey>, last: BlobKey, r: BlobKey)
    requires Increasing(KeyLess, init + [last]) && r in init
    ensures KeyLess(r, last)
    ensures SamePartition(r, last) ==> SamePartition(init[|init| - 1], last)
  {
    var n, i :| n == |init| && 0 <= i < n && init[i] == r;
    assert (init + [last])[i] == r && (init + [last])[n] == last && (init + [last])[n - 1] == init[n - 1];
    if SamePartition(r, last) && i < n - 1 {
      Sandwiched(r, init[n - 1], last);
    }
  }

  lemma LeadsOneMore(init: seq<BlobKey>, last: BlobKey, k: BlobKey)
    requires Increasing(KeyLess, init + [last]) && Leads(init, k)
    ensures Leads(init + [last], k)
  {
    LastIsAfter(init, last, k);
  }

  lemma SameRun(init: seq<BlobKey>, last: BlobKey, kept: seq<BlobKey>)
    requires Increasing(KeyLess, init + [last]) && Picks(init, kept)
    requires init != [] && SamePartition(init[|init| - 1], last)
    ensures Picks(init + [last], kept)
  {
    forall k | k in kept ensures Leads(init + [last], k) {
      LeadsOneMore(init, last, k);
    }
    assert Represented(kept, init[|init| - 1]);
    assert Represented(kept, last);
  }

  lemma NewLeader(init: seq<BlobKey>, last: BlobKey)
    requires Increasing(KeyLess, init + [last])
    requires init == [] || !SamePartition(init[|init| - 1], last)
    ensures Leads(init + [last], last)
    ensures forall r :: r in init ==> PartitionLess(r, last)
  {
    forall r | r in init ensures PartitionLess(r, last) {
      LastIsAfter(init, last, r);
    }
  }

  lemma StillRepresented(kept: seq<BlobKey>, last: BlobKey, k: BlobKey)
    requires Represented(kept, k) || k == last
    ensures Represented(kept + [last], k)
  {
    if k == last {
      assert last in kept + [last];
    } else {
      var r :| r in kept && SamePartition(r, k);
      assert r in kept + [last];
    }
  }

  lemma NewRun(init: seq<BlobKey>, last: BlobKey, kept: seq<BlobKey>)
    requires Increasing(KeyLess, init + [last]) && Picks(init, kept)
    requires init == [] || !SamePartition(init[|init| - 1], last)
    ensures Picks(init + [last], kept + [last])
  {
    NewLeader(init, last);
    forall k | k in kept + [last] ensures Leads(init + [last], k) {
      if k in kept {
        LeadsOneMore(init, last, k);
      }
    }
    forall k | k in init + [last] ensures Represented(kept + [last], k) {
      assert k in init ==> Represented(kept, k);
      StillRepresented(kept, last, k);
    }
    forall k | k in kept ensures PartitionLess(k, last) {
      assert Leads(init, k);
    }
    IncreasingSnoc(kept, last);
  }

  lemma IncreasingSnoc(kept: seq<BlobKey>, last: BlobKey)
    requires Increasing(PartitionLess, kept) && forall k :: k in kept ==> PartitionLess(k, last)
    ensures Increasing(PartitionLess, kept + [last])
  {
    forall i, j | 0 <= i < j < |kept + [last]| ensures PartitionLess((kept + [last])[i], (kept + [last])[j]) {
      assert kept[i] in kept;
    }
  }

  /** On sorted rows DISTINCT ON keeps the newest row of every partition, in order, and nothing else. */
  lemma {:induction false} DistinctOnPicks(rows: seq<BlobKey>)
    requires Increasing(KeyLess, rows)
    ensures Picks(rows, DistinctOn(rows))
    decreases |rows|
  {
    if rows != [] {
      var n := |rows| - 1;
      DistinctOnPicks(rows[..n]);
      assert rows == rows[..n] + [rows[n]];
      if n > 0 && SamePartition(rows[n - 1], rows[n]) {
        SameRun(rows[..n], rows[n], DistinctOn(rows[..n]));
        assert DistinctOn(rows) == DistinctOn(rows[..n]);
      } else {
        NewRun(rows[..n], rows[n], DistinctOn(rows[..n]));
      }
    }
  }

  // ---- SUM and MAX OVER (PARTITION BY device_id, generation) ------------------------------------------

  function SumOver(table: LogTable, scan: seq<BlobKey>, of: BlobKey): nat
    requires forall k :: k in scan ==> k in table
  {
    if scan == [] then 0
    else
      var last := scan[|scan| - 1];
      SumOver(table, scan[..|scan| - 1], of) + if SamePartition(last, of) then table[last].size else 0
  }

  function MaxOver(table: LogTable, scan: seq<BlobKey>, of: BlobKey): nat
    requires forall k :: k in scan ==> k in table
  {
    if scan == [] then 0
    else
      var last, m := scan[|scan| - 1], MaxOver(table, scan[..|scan| - 1], of);
      if SamePartition(last, of) && table[last].createdAt > m then table[last].createdAt else m
  }

  function Partition(scan: seq<BlobKey>, of: BlobKey): set<BlobKey> {
    set k | k in scan && SamePartition(k, of)
  }

  /** The table's rows are the log's entries, column by column. */
  ghost predicate Mirrors(table: LogTable, log: Log) {
    table.Keys == log.Keys && forall k :: k in table ==> MirrorsRow(table[k], log[k])
  }

  predicate MirrorsRow(row: LogRow, blob: Blob) {
    row.size == |blob.data| && row.sha == blob.sha && Coalesce(row.prev) == blob.prev && row.createdAt == blob.createdAt
  }

  lemma {:induction false} SumOverIsTotal(table: LogTable, log: Log, scan: seq<BlobKey>, of: BlobKey)
    requires Mirrors(table, log)
    requires (forall k :: k in scan ==> k in table) && forall i, j :: 0 <= i < j < |scan| ==> scan[i] != scan[j]
    ensures SumOver(table, scan, of) == TotalBytes(log, Partition(scan, of))
    decreases |scan|
  {
    if scan != [] {
      var n := |scan| - 1;
      var init, last := scan[..n], scan[n];
      assert forall k :: k in scan <==> k in init || k == last;
      SumOverIsTotal(table, log, init, of);
      if SamePartition(last, of) {
        assert Partition(scan, of) == Partition(init, of) + {last};
        TotalBytesAdd(log, Partition(init, of), last);
      } else {
        assert Partition(scan, of) == Partition(init, of);
      }
    }
  }

  lemma {:induction false} MaxOverIsMax(table: LogTable, scan: seq<BlobKey>, of: BlobKey)
    requires forall k :: k in scan ==> k in table
    ensures forall k :: k in Partition(scan, of) ==> table[k].createdAt <= MaxOver(table, scan, of)
    ensures Partition(scan, of) != {} ==>
              exists k :: k in Partition(scan, of) && table[k].createdAt == MaxOver(table, scan, of)
    decreases |scan|
  {
    if scan != [] {
      var n := |scan| - 1;
      var init, last := scan[..n], scan[n];
      assert forall k :: k in scan <==> k in init || k == last;
      MaxOverIsMax(table, init, of);
      var m := MaxOver(table, init, of);
      if SamePartition(last, of) && table[last].createdAt > m {
        assert last in Partition(scan, of);
      } else if Partition(scan, of) != {} && Partition(init, of) != {} {
        var k :| k in Partition(init, of) && table[k].createdAt == m;
        assert k in Partition(scan, of);
      } else if Partition(scan, of) != {} {
        MaxOfNone(table, init, of);
        assert last in Partition(scan, of);
      }
    }
  }

  lemma {:induction false} MaxOfNone(table: LogTable, scan: seq<BlobKey>, of: BlobKey)
    requires (forall k :: k in scan ==> k in table) && Partition(scan, of) == {}
    ensures MaxOver(table, scan, of) == 0
    decreases |scan|
  {
    if scan != [] {
      var init := scan[..|scan| - 1];
      var last := scan[|scan| - 1];
      assert SamePartition(last, of) ==> last in Partition(scan, of);
      assert Partition(init, of) <= Partition(scan, of);
      MaxOfNone(table, init, of);
    }
  }

  // ---- Manifest --------------------------------------------------------------------------------------

  function Selected(table: LogTable, scan: seq<BlobKey>, head: BlobKey): Summary
    requires head in table && forall k :: k in scan ==> k in table
  {
    Summary(head.device, head.generation, head.seqNo, table[head].sha,
            SumOver(table, scan, head), MaxOver(table, scan, head))
  }

  /** The rows of the answer, one for each row that DISTINCT ON kept. */
  ghost predicate Lists(table: LogTable, scan: seq<BlobKey>, kept: seq<BlobKey>, out: seq<Summary>)
    requires forall k :: k in scan ==> k in table
  {
    |out| == |kept| && forall i :: 0 <= i < |kept| ==> kept[i] in table && out[i] == Selected(table, scan, kept[i])
  }

  function Listed(table: LogTable, scan: seq<BlobKey>, kept: seq<BlobKey>): (out: seq<Summary>)
    requires (forall k :: k in scan ==> k in table) && forall k :: k in kept ==> k in table
    ensures Lists(table, scan, kept, out)
  {
    assert forall i :: 0 <= i < |kept| ==> kept[i] in kept;
    seq(|kept|, i requires 0 <= i < |kept| => Selected(table, scan, kept[i]))
  }

  /** The whole query on the rows WHERE lets through. */
  function ManifestQuery(table: LogTable, scan: seq<BlobKey>): seq<Summary>
    requires forall k :: k in scan ==> k in table
  {
    SameMembers(Sort(KeyLess, scan), scan);
    DistinctFrom(Sort(KeyLess, scan));
    Listed(table, scan, DistinctOn(Sort(KeyLess, scan)))
  }

  lemma {:induction false} DistinctFrom(rows: seq<BlobKey>)
    ensures forall k :: k in DistinctOn(rows) ==> k in rows
    decreases |rows|
  {
    if rows != [] {
      DistinctFrom(rows[..|rows| - 1]);
    }
  }

  lemma SelectedSummarizes(table: LogTable, log: Log, pseudonym: string, scan: seq<BlobKey>, head: BlobKey)
    requires Mirrors(table, log) && ScansWhere(table, OfPseudonym(pseudonym), scan) && Leads(scan, head)
    ensures Summarizes(log, pseudonym, Selected(table, scan, head))
  {
    var s := Selected(table, scan, head);
    assert Group(log, pseudonym, s.device, s.generation) == Partition(scan, head);
    assert BlobKey(pseudonym, s.device, s.generation, s.headSeq) == head;
    SumOverIsTotal(table, log, scan, head);
    MaxOverIsMax(table, scan, head);
    assert head in Partition(scan, head);
    forall k | k in Partition(scan, head) ensures log[k].createdAt == table[k].createdAt && k.seqNo <= s.headSeq {
      assert MirrorsRow(table[k], log[k]);
    }
    assert MirrorsRow(table[head], log[head]);
  }

  lemma ListedSummarize(
      table: LogTable, log: Log, pseudonym: string, scan: seq<BlobKey>, kept: seq<BlobKey>, out: seq<Summary>)
    requires Mirrors(table, log) && ScansWhere(table, OfPseudonym(pseudonym), scan) && Lists(table, scan, kept, out)
    requires forall k :: k in kept ==> Leads(scan, k)
    ensures forall s :: s in out ==> Summarizes(log, pseudonym, s)
  {
    forall s | s in out ensures Summarizes(log, pseudonym, s) {
      var i :| 0 <= i < |out| && out[i] == s;
      assert kept[i] in kept;
      SelectedSummarizes(table, log, pseudonym, scan, kept[i]);
    }
  }

  lemma ListedAreOrdered(table: LogTable, scan: seq<BlobKey>, kept: seq<BlobKey>, out: seq<Summary>)
    requires (forall k :: k in scan ==> k in table) && Lists(table, scan, kept, out)
    requires Increasing(PartitionLess, kept)
    ensures Increasing(SummaryLess, out)
  {
    forall i, j | 0 <= i < j < |out| ensures SummaryLess(out[i], out[j]) {
      assert PartitionLess(kept[i], kept[j]);
    }
  }

  lemma ListedIsReported(table: LogTable, scan: seq<BlobKey>, kept: seq<BlobKey>, out: seq<Summary>, k: BlobKey)
    requires (forall k :: k in scan ==> k in table) && Lists(table, scan, kept, out)
    requires Represented(kept, k)
    ensures Reported(out, k.device, k.generation)
  {
    var r :| r in kept && SamePartition(r, k);
    var i :| 0 <= i < |kept| && kept[i] == r;
    assert out[i] in out;
  }

  /** Whatever order the rows are scanned in, the query answers the manifest of the log they are. */
  lemma ManifestQueryIsManifest(table: LogTable, log: Log, pseudonym: string, scan: seq<BlobKey>)
    requires Mirrors(table, log) && ScansWhere(table, OfPseudonym(pseudonym), scan)
    ensures IsManifest(log, pseudonym, ManifestQuery(table, scan))
  {
    var sorted := Sort(KeyLess, scan);
    var kept, out := DistinctOn(sorted), ManifestQuery(table, scan);
    ScanSorted(table, pseudonym, scan);
    DistinctOnPicks(sorted);
    forall k | k in kept ensures Leads(scan, k) {
      assert Leads(sorted, k);
    }
    ListedSummarize(table, log, pseudonym, scan, kept, out);
    ListedAreOrdered(table, scan, kept, out);
    forall k | k in log && k.pseudonym == pseudonym ensures Reported(out, k.device, k.generation) {
      assert k in scan && Represented(kept, k);
      ListedIsReported(table, scan, kept, out, k);
    }
  }

  /** The tables of every reachable state are, row by row, the log they stand for. */
  lemma TablesMirrorLog(H: Hash, s: State)
    requires Reachable(H, s)
    ensures Mirrors(s.db.log, Abs(s.db, Everything))
  {
    ReachableKeepsIntegrity(H, s);
    forall k | k in s.db.log ensures MirrorsRow(s.db.log[k], Abs(s.db, Everything)[k]) {
      LogRowIsComplete(H, s.db, k);
    }
  }

  /**
   * In every reachable state the PostgreSQL query answers exactly what any other computation of the
   * manifest, the in-memory store's for one, answers on the same log.
   */
  lemma StoresAgreeOnManifest(H: Hash, s: State, pseudonym: string, scan: seq<BlobKey>, out: seq<Summary>)
    requires Reachable(H, s) && ScansWhere(s.db.log, OfPseudonym(pseudonym), scan)
    ensures IsManifest(Abs(s.db, Everything), pseudonym, out) <==> out == ManifestQuery(s.db.log, scan)
  {
    TablesMirrorLog(H, s);
    ManifestQueryIsManifest(s.db.log, Abs(s.db, Everything), pseudonym, scan);
    if IsManifest(Abs(s.db, Everything), pseudonym, out) {
      ManifestUnique(Abs(s.db, Everything), pseudonym, out, ManifestQuery(s.db.log, scan));
    }
  }

  // ---- Index -----------------------------------------------------------------------------------------

  function OfLog(k: BlobKey, from: int): BlobKey -> bool {
    (r: BlobKey) => r.SameLog(k) && r.seqNo >= from
  }

  function Line(r: BlobKey, row: LogRow): Entry {
    Entry(r.seqNo, row.sha, Coalesce(row.prev), row.size, row.createdAt)
  }

  /** ORDER BY seq ASC LIMIT limit, on the rows WHERE lets through. */
  function IndexQuery(table: LogTable, scan: seq<BlobKey>, limit: nat): seq<Entry>
    requires forall k :: k in scan ==> k in table
  {
    var lines := seq(|scan|, i requires 0 <= i < |scan| => assert scan[i] in scan; Line(scan[i], table[scan[i]]));
    Limited(Sort(EntryLess, lines), limit)
  }

  lemma ScanGathers(table: LogTable, log: Log, k: BlobKey, from: int, scan: seq<BlobKey>, lines: seq<Entry>)
    requires Mirrors(table, log) && ScansWhere(table, OfLog(k, from), scan) && |lines| == |scan|
    requires forall i :: 0 <= i < |scan| ==> scan[i] in table && lines[i] == Line(scan[i], table[scan[i]])
    ensures Gathers(log, k, from, lines)
  {
    forall i, j | 0 <= i < j < |lines| ensures lines[i].seqNo != lines[j].seqNo {
      assert scan[i] in scan && scan[j] in scan && scan[i] != scan[j];
    }
    forall e | e in lines
      ensures e.seqNo >= from && k.At(e.seqNo) in log && e == EntryOf(k.At(e.seqNo), log[k.At(e.seqNo)])
    {
      var i :| 0 <= i < |lines| && lines[i] == e;
      assert scan[i] in scan && scan[i] == k.At(e.seqNo);
      assert MirrorsRow(table[scan[i]], log[scan[i]]);
    }
    forall n | n >= from && k.At(n) in log ensures EntryOf(k.At(n), log[k.At(n)]) in lines {
      assert k.At(n) in scan;
      var i :| 0 <= i < |scan| && scan[i] == k.At(n);
      assert MirrorsRow(table[k.At(n)], log[k.At(n)]);
      assert lines[i] in lines;
    }
  }

  // ---- What a page is, on any log, with gaps or without ----------------------------------------------

  ghost predicate EntryFrom(log: Log, k: BlobKey, from: int, e: Entry) {
    e.seqNo >= from && k.At(e.seqNo) in log && e == EntryOf(k.At(e.seqNo), log[k.At(e.seqNo)])
  }

  /** The page shows entry n, or is full of entries before it. */
  ghost predicate Shown(log: Log, k: BlobKey, limit: nat, page: seq<Entry>, n: int)
    requires k.At(n) in log
  {
    EntryOf(k.At(n), log[k.At(n)]) in page || (|page| == limit && forall i :: 0 <= i < |page| ==> page[i].seqNo < n)
  }

  /** The first entries from `from` on, in order, as many as there are up to the limit. */
  ghost predicate IsPage(log: Log, k: BlobKey, from: int, limit: nat, page: seq<Entry>) {
    && Increasing(EntryLess, page) && |page| <= limit
    && (forall e {:trigger EntryFrom(log, k, from, e)} :: e in page ==> EntryFrom(log, k, from, e))
    && (forall n {:trigger k.At(n)} :: n >= from && k.At(n) in log ==> Shown(log, k, limit, page, n))
  }

  function Limited(page: seq<Entry>, limit: nat): seq<Entry> {
    if |page| > limit then page[..limit] else page
  }

  /** Sorting what was gathered and cutting it at the limit makes a page. */
  lemma GatheredMakePage(log: Log, k: BlobKey, from: int, limit: nat, lines: seq<Entry>)
    requires Gathers(log, k, from, lines)
    ensures IsPage(log, k, from, limit, Limited(Sort(EntryLess, lines), limit))
  {
    var sorted := Sort(EntryLess, lines);
    var page := Limited(sorted, limit);
    SortIncreasing(EntryLess, lines);
    SameMembers(sorted, lines);
    forall e | e in page ensures EntryFrom(log, k, from, e) {
      assert e in sorted && e in lines;
    }
    forall n | n >= from && k.At(n) in log ensures Shown(log, k, limit, page, n) {
      var e := EntryOf(k.At(n), log[k.At(n)]);
      assert e in lines && e in sorted;
      var j :| 0 <= j < |sorted| && sorted[j] == e;
      assert j < |page| ==> page[j] == e;
    }
  }

  lemma SamePrefix(a: seq<Entry>, b: seq<Entry>, i: nat)
    requires i <= |a| && i <= |b| && a[..i] == b[..i]
    ensures forall j :: 0 <= j < i ==> a[j] == b[j]
  {
    forall j | 0 <= j < i ensures a[j] == b[j] {
      assert a[..i][j] == b[..i][j];
    }
  }

  /** Two pages cannot first differ where one has the earlier entry. */
  lemma NotEarlier(log: Log, k: BlobKey, from: int, limit: nat, a: seq<Entry>, b: seq<Entry>, i: nat)
    requires IsPage(log, k, from, limit, a) && IsPage(log, k, from, limit, b)
    requires i < |a| && i < |b| && a[..i] == b[..i]
    ensures a[i].seqNo >= b[i].seqNo
  {
    SamePrefix(a, b, i);
    assert a[i] in a && EntryFrom(log, k, from, a[i]);
    assert Shown(log, k, limit, b, a[i].seqNo);
  }

  lemma {:induction false} SameUpTo(log: Log, k: BlobKey, from: int, limit: nat, a: seq<Entry>, b: seq<Entry>, i: nat)
    requires IsPage(log, k, from, limit, a) && IsPage(log, k, from, limit, b)
    requires i <= |a| && i <= |b|
    ensures a[..i] == b[..i]
    decreases i
  {
    if i > 0 {
      SameUpTo(log, k, from, limit, a, b, i - 1);
      NotEarlier(log, k, from, limit, a, b, i - 1);
      NotEarlier(log, k, from, limit, b, a, i - 1);
      assert a[i - 1] in a && EntryFrom(log, k, from, a[i - 1]);
      assert b[i - 1] in b && EntryFrom(log, k, from, b[i - 1]);
      assert a[..i] == a[..i - 1] + [a[i - 1]] && b[..i] == b[..i - 1] + [b[i - 1]];
    }
  }

  lemma NotShorter(log: Log, k: BlobKey, from: int, limit: nat, a: seq<Entry>, b: seq<Entry>)
    requires IsPage(log, k, from, limit, a) && IsPage(log, k, from, limit, b)
    ensures |a| >= |b|
  {
    var m := if |a| < |b| then |a| else |b|;
    SameUpTo(log, k, from, limit, a, b, m);
    SamePrefix(a, b, m);
    assert |a| < |b| ==> b[m] in b && EntryFrom(log, k, from, b[m]) && Shown(log, k, limit, a, b[m].seqNo);
  }

  /** A log has one page for each start and limit. */
  lemma PageUnique(log: Log, k: BlobKey, from: int, limit: nat, a: seq<Entry>, b: seq<Entry>)
    requires IsPage(log, k, from, limit, a) && IsPage(log, k, from, limit, b)
    ensures a == b
  {
    NotShorter(log, k, from, limit, a, b);
    NotShorter(log, k, from, limit, b, a);
    SameUpTo(log, k, from, limit, a, b, |a|);
    assert a == a[..|a|] && b == b[..|a|];
  }

  /** Each line is a row that was scanned, column by column, with NULL read as the empty string. */
  lemma LinesShowRows(table: LogTable, scan: seq<BlobKey>, limit: nat, e: Entry)
    requires (forall k :: k in scan ==> k in table) && e in IndexQuery(table, scan, limit)
    ensures exists k :: k in scan && e.seqNo == k.seqNo && e.sha == table[k].sha && e.size == table[k].size
              && e.createdAt == table[k].createdAt
              && (if table[k].prev.None? then e.prev == "" else e.prev == table[k].prev.value)
  {
    var lines := seq(|scan|, i requires 0 <= i < |scan| => assert scan[i] in scan; Line(scan[i], table[scan[i]]));
    SameMembers(Sort(EntryLess, lines), lines);
    assert e in lines;
    var i :| 0 <= i < |lines| && lines[i] == e;
    assert scan[i] in scan;
  }

  /** In every reachable state, on a log with gaps too and in any scan order, the query answers the page and nothing else. */
  lemma IndexQueryIsPage(H: Hash, s: State, k: BlobKey, from: int, limit: nat, scan: seq<BlobKey>, page: seq<Entry>)
    requires Reachable(H, s) && ScansWhere(s.db.log, OfLog(k, from), scan)
    ensures IsPage(Abs(s.db, Everything), k, from, limit, page) <==> page == IndexQuery(s.db.log, scan, limit)
  {
    var log, table := Abs(s.db, Everything), s.db.log;
    TablesMirrorLog(H, s);
    var lines := seq(|scan|, i requires 0 <= i < |scan| => assert scan[i] in scan; Line(scan[i], table[scan[i]]));
    ScanGathers(table, log, k, from, scan, lines);
    GatheredMakePage(log, k, from, limit, lines);
    if IsPage(log, k, from, limit, page) {
      PageUnique(log, k, from, limit, page, IndexQuery(table, scan, limit));
    }
  }

  /** On a log that holds 1..n the page is the in-memory store's, for every limit the handler lets through. */
  lemma IndexQueryIsIndex(H: Hash, s: State, k: BlobKey, from: int, limit: int, scan: seq<BlobKey>)
    requires Reachable(H, s) && ScansWhere(s.db.log, OfLog(k, from), scan)
    requires OneToHead(s.db.log.Keys, k)
    ensures OneToHead(Abs(s.db, Everything).Keys, k)
    ensures IndexQuery(s.db.log, scan, ClampLimit(limit)) == IndexOf(Abs(s.db, Everything), k, from, ClampLimit(limit))
  {
    var log, table := Abs(s.db, Everything), s.db.log;
    TablesMirrorLog(H, s);
    var lines := seq(|scan|, i requires 0 <= i < |scan| => assert scan[i] in scan; Line(scan[i], table[scan[i]]));
    ScanGathers(table, log, k, from, scan, lines);
    SortedIsIndex(log, k, from, ClampLimit(limit), lines);
  }
}
