/** What Index and Manifest report about a log, said without loops; and paging through an index. */
module LogQueries {
  import opened Base
  import opened BlobKeys
  import opened AtomicLog
  import opened Sorting

  datatype Entry = Entry(seqNo: int, sha: string, prev: string, size: nat, createdAt: nat)

  function EntryOf(k: BlobKey, blob: Blob): Entry {
    Entry(k.seqNo, blob.sha, blob.prev, |blob.data|, blob.createdAt)
  }

  /** The line says of the n-th entry what the entry is: its digest, predecessor, size and time. */
  predicate Tells(e: Entry, n: int, blob: Blob) {
    && e.seqNo == n && e.sha == blob.sha && e.prev == blob.prev
    && e.size == |blob.data| && e.createdAt == blob.createdAt
  }

  /** How many entries a page has: what there is from `from` on, up to the limit if there is one. */
  function PageSize(head: int, from: int, limit: int): nat {
    var lo := if from < 1 then 1 else from;
    var n := if head < lo then 0 else head - lo + 1;
    if limit > 0 && n > limit then limit else n
  }

  /** WHERE seq >= from ORDER BY seq LIMIT limit, over a log that holds 1..head. */
  function IndexOf(log: Log, k: BlobKey, from: int, limit: int): (page: seq<Entry>)
    requires OneToHead(log.Keys, k)
    ensures |page| == PageSize(HeadSeq(log.Keys, k), from, limit)
    ensures forall i :: 0 <= i < |page| ==>
              var n := (if from < 1 then 1 else from) + i;
              k.At(n) in log.Keys && page[i] == EntryOf(k.At(n), log[k.At(n)]) && Tells(page[i], n, log[k.At(n)])
  {
    var lo := if from < 1 then 1 else from;
    var m := PageSize(HeadSeq(log.Keys, k), from, limit);
    assert forall i :: lo <= i < lo + m ==> k.At(i) in log.Keys;
    seq(m, i requires 0 <= i < m => EntryOf(k.At(lo + i), log[k.At(lo + i)]))
  }

  predicate EntryLess(a: Entry, b: Entry) {
    a.seqNo < b.seqNo
  }

  function Cut(page: seq<Entry>, limit: int): seq<Entry> {
    if limit > 0 && |page| > limit then page[..limit] else page
  }

  /** out lists, in some order and each once, the entries of k's log from lo on. */
  ghost predicate Gathers(log: Log, k: BlobKey, lo: int, out: seq<Entry>) {
    && (forall i, j :: 0 <= i < j < |out| ==> out[i].seqNo != out[j].seqNo)
    && (forall e :: e in out ==> e.seqNo >= lo && k.At(e.seqNo) in log && e == EntryOf(k.At(e.seqNo), log[k.At(e.seqNo)]))
    && (forall n :: n >= lo && k.At(n) in log ==> EntryOf(k.At(n), log[k.At(n)]) in out)
  }

  lemma GatheredAreIndexed(log: Log, k: BlobKey, from: int, out: seq<Entry>, e: Entry)
    requires OneToHead(log.Keys, k) && Gathers(log, k, from, out)
    ensures e in out <==> e in IndexOf(log, k, from, 0)
  {
    var lo := if from < 1 then 1 else from;
    var whole := IndexOf(log, k, from, 0);
    if e in out {
      assert k.At(e.seqNo) in log;
      assert whole[e.seqNo - lo] == e;
    }
    if e in whole {
      var i :| 0 <= i < |whole| && whole[i] == e;
      assert k.At(lo + i) in log;
    }
  }

  lemma IndexIncreasing(log: Log, k: BlobKey, from: int, limit: int)
    requires OneToHead(log.Keys, k)
    ensures Increasing(EntryLess, IndexOf(log, k, from, limit))
  {
  }

  lemma IndexCut(log: Log, k: BlobKey, from: int, limit: int)
    requires OneToHead(log.Keys, k)
    ensures Cut(IndexOf(log, k, from, 0), limit) == IndexOf(log, k, from, limit)
  {
  }

  /** Sorting what was gathered and cutting it at the limit gives the page. */
  lemma SortedIsIndex(log: Log, k: BlobKey, from: int, limit: int, out: seq<Entry>)
    requires OneToHead(log.Keys, k) && Gathers(log, k, from, out)
    ensures Cut(Sort(EntryLess, out), limit) == IndexOf(log, k, from, limit)
  {
    var sorted := Sort(EntryLess, out);
    var whole := IndexOf(log, k, from, 0);
    SortIncreasing(EntryLess, out);
    SameMembers(sorted, out);
    IndexIncreasing(log, k, from, 0);
    forall e ensures e in sorted <==> e in whole {
      GatheredAreIndexed(log, k, from, out, e);
    }
    OrderedEqual(EntryLess, sorted, whole);
    IndexCut(log, k, from, limit);
  }

  // ---- Manifest ------------------------------------------------------------------------------------

  datatype Summary = Summary(
    device: string, generation: int, headSeq: int, headSha: string, totalBytes: nat, updatedAt: nat)

  predicate SummaryLess(a: Summary, b: Summary) {
    if a.device != b.device then StringLess(a.device, b.device) else a.generation < b.generation
  }

  function Group(log: Log, pseudonym: string, device: string, generation: int): set<BlobKey> {
    set k | k in log && k.pseudonym == pseudonym && k.device == device && k.generation == generation
  }

  /** SUM(size) over a set of entries. */
  ghost function TotalBytes(log: Log, keys: set<BlobKey>): nat
    requires keys <= log.Keys
  {
    if keys == {} then 0
    else
      var k := AnyOf(keys);
      |log[k].data| + TotalBytes(log, keys - {k})
  }

  lemma {:induction false} TotalBytesAdd(log: Log, keys: set<BlobKey>, k: BlobKey)
    requires keys <= log.Keys && k in log && k !in keys
    ensures TotalBytes(log, keys + {k}) == |log[k].data| + TotalBytes(log, keys)
    decreases |keys|
  {
    var all := keys + {k};
    var first := AnyOf(all);
    if first == k {
      assert all - {k} == keys;
    } else {
      var rest := keys - {first};
      assert all - {first} == rest + {k};
      TotalBytesAdd(log, rest, k);
      assert keys == rest + {first};
      TotalBytesAdd(log, rest, first);
    }
  }

  /** One row of DISTINCT ON (device, generation) ... ORDER BY seq DESC with its window aggregates. */
  ghost predicate Summarizes(log: Log, pseudonym: string, s: Summary) {
    var group := Group(log, pseudonym, s.device, s.generation);
    var head := BlobKey(pseudonym, s.device, s.generation, s.headSeq);
    && head in group
    && (forall k :: k in group ==> k.seqNo <= s.headSeq)
    && s.headSha == log[head].sha
    && s.totalBytes == TotalBytes(log, group)
    && (exists k :: k in group && log[k].createdAt == s.updatedAt)
    && (forall k :: k in group ==> log[k].createdAt <= s.updatedAt)
  }

  /** One summary for each non-empty (device, generation), in order. */
  ghost predicate IsManifest(log: Log, pseudonym: string, out: seq<Summary>) {
    && (forall s :: s in out ==> Summarizes(log, pseudonym, s))
    && (forall i, j :: 0 <= i < j < |out| ==> SummaryLess(out[i], out[j]))
    && (forall k :: k in log && k.pseudonym == pseudonym ==> Reported(out, k.device, k.generation))
  }

  ghost predicate Reported(out: seq<Summary>, device: string, generation: int) {
    exists s :: s in out && s.device == device && s.generation == generation
  }

  lemma SummaryUnique(log: Log, pseudonym: string, a: Summary, b: Summary)
    requires Summarizes(log, pseudonym, a) && Summarizes(log, pseudonym, b)
    requires a.device == b.device && a.generation == b.generation
    ensures a == b
  {
    assert BlobKey(pseudonym, a.device, a.generation, a.headSeq) in Group(log, pseudonym, a.device, a.generation);
    assert BlobKey(pseudonym, b.device, b.generation, b.headSeq) in Group(log, pseudonym, a.device, a.generation);
  }

  lemma SummaryLessOrder()
    ensures StrictOrder(SummaryLess)
  {
    forall a: Summary ensures !SummaryLess(a, a) {
    }
    forall a: Summary, b: Summary, c: Summary | SummaryLess(a, b) && SummaryLess(b, c) ensures SummaryLess(a, c) {
      if a.device != b.device && b.device != c.device {
        StringLessTransitive(a.device, b.device, c.device);
        StringLessIrreflexive(a.device);
      }
    }
  }

  lemma ReportedByBoth(log: Log, pseudonym: string, a: seq<Summary>, b: seq<Summary>, s: Summary)
    requires IsManifest(log, pseudonym, a) && IsManifest(log, pseudonym, b) && s in a
    ensures s in b
  {
    assert Summarizes(log, pseudonym, s);
    assert BlobKey(pseudonym, s.device, s.generation, s.headSeq) in log;
    assert Reported(b, s.device, s.generation);
    var t :| t in b && t.device == s.device && t.generation == s.generation;
    SummaryUnique(log, pseudonym, s, t);
  }

  lemma Inhabited<T>(s: seq<T>)
    ensures s == [] || exists x :: x in s
  {
    if s != [] { assert s[0] in s; }
  }

  /** Two strictly ordered sequences with the same elements are equal. */
  lemma {:induction false} OrderedEqual<T(!new)>(less: (T, T) -> bool, a: seq<T>, b: seq<T>)
    requires StrictOrder(less)
    requires forall i, j :: 0 <= i < j < |a| ==> less(a[i], a[j])
    requires forall i, j :: 0 <= i < j < |b| ==> less(b[i], b[j])
    requires forall x :: x in a <==> x in b
    ensures a == b
    decreases |a|
  {
    Inhabited(a);
    Inhabited(b);
    if a != [] {
      assert a[0] in b && b[0] in a;
      assert a[0] == b[0];
      var s, t := a[1..], b[1..];
      assert a[0] !in s by { assert forall i :: 0 <= i < |s| ==> less(a[0], s[i]); }
      assert b[0] !in t by { assert forall i :: 0 <= i < |t| ==> less(b[0], t[i]); }
      forall x ensures x in s <==> x in t {
        assert x in a <==> x == a[0] || x in s;
        assert x in b <==> x == b[0] || x in t;
      }
      OrderedEqual(less, s, t);
      assert a == [a[0]] + s && b == [b[0]] + t;
    }
  }

  /** A log has one manifest: whichever way it is computed, the answer is the same. */
  lemma ManifestUnique(log: Log, pseudonym: string, a: seq<Summary>, b: seq<Summary>)
    requires IsManifest(log, pseudonym, a) && IsManifest(log, pseudonym, b)
    ensures a == b
  {
    SummaryLessOrder();
    forall x ensures x in a <==> x in b {
      if x in a { ReportedByBoth(log, pseudonym, a, b, x); }
      if x in b { ReportedByBoth(log, pseudonym, b, a, x); }
    }
    OrderedEqual(SummaryLess, a, b);
  }

  // ---- Manifest against Index ------------------------------------------------------------------------

  function SumSizes(page: seq<Entry>): nat {
    if page == [] then 0 else SumSizes(page[..|page| - 1]) + page[|page| - 1].size
  }

  /** The first n entries of k's log. */
  function Prefix(k: BlobKey, n: nat): set<BlobKey> {
    set i | 1 <= i <= n :: k.At(i)
  }

  lemma PrefixStep(k: BlobKey, n: nat)
    requires n > 0
    ensures Prefix(k, n) == Prefix(k, n - 1) + {k.At(n)} && k.At(n) !in Prefix(k, n - 1)
  {
    forall r ensures r in Prefix(k, n) <==> r in Prefix(k, n - 1) + {k.At(n)} {
      if r in Prefix(k, n) {
        var i :| 1 <= i <= n && r == k.At(i);
        assert i <= n - 1 ==> k.At(i) in Prefix(k, n - 1);
      }
    }
  }

  /** The page starts at the log's first entry and has the entries' sizes. */
  ghost predicate SizesOf(log: Log, k: BlobKey, page: seq<Entry>) {
    forall i :: 0 <= i < |page| ==> k.At(1 + i) in log && page[i].size == |log[k.At(1 + i)].data|
  }

  lemma {:induction false} PrefixBytes(log: Log, k: BlobKey, page: seq<Entry>, n: nat)
    requires n <= |page| && SizesOf(log, k, page)
    ensures Prefix(k, n) <= log.Keys && |Prefix(k, n)| == n
    ensures TotalBytes(log, Prefix(k, n)) == SumSizes(page[..n])
    decreases n
  {
    if n > 0 {
      PrefixBytes(log, k, page, n - 1);
      PrefixStep(k, n);
      assert page[n - 1].size == |log[k.At(n)].data|;
      TotalBytesAdd(log, Prefix(k, n - 1), k.At(n));
      assert page[..n][..n - 1] == page[..n - 1];
    }
  }

  /**
   * In a contiguous log a summary agrees with the index of its generation: the head is the number
   * of entries, its digest is the last entry's, and the total is the sum of the entries' sizes.
   */
  lemma SummaryMatchesIndex(log: Log, pseudonym: string, s: Summary)
    requires Contiguous(log.Keys) && Summarizes(log, pseudonym, s)
    ensures var k := BlobKey(pseudonym, s.device, s.generation, s.headSeq);
            OneToHead(log.Keys, k) &&
            var page := IndexOf(log, k, 1, 0);
            && |page| == s.headSeq == |Group(log, pseudonym, s.device, s.generation)|
            && page[|page| - 1].sha == s.headSha
            && s.totalBytes == SumSizes(page)
  {
    var k := BlobKey(pseudonym, s.device, s.generation, s.headSeq);
    var head := HeadSeq(log.Keys, k);
    HeadIsLength(log.Keys, k);
    assert k.At(s.headSeq) == k;
    assert k.At(head) in Group(log, pseudonym, s.device, s.generation);
    assert head == s.headSeq;
    var page := IndexOf(log, k, 1, 0);
    assert SizesOf(log, k, page);
    PrefixBytes(log, k, page, head);
    forall r ensures r in Group(log, pseudonym, s.device, s.generation) <==> r in Prefix(k, head) {
      assert r.SameLog(k) ==> r == k.At(r.seqNo);
    }
    assert Group(log, pseudonym, s.device, s.generation) == Prefix(k, head);
    assert page[..head] == page;
  }

  // ---- Paging ----------------------------------------------------------------------------------------

  const DEFAULT_INDEX_LIMIT := 500

  function ClampLimit(limit: int): int {
    if limit < 1 || limit > DEFAULT_INDEX_LIMIT then DEFAULT_INDEX_LIMIT else limit
  }

  /** A limit from 1 to 500 is the caller's; any other is 500. */
  lemma ClampLimitExactly(limit: int)
    ensures 1 <= limit <= 500 ==> ClampLimit(limit) == limit
    ensures limit < 1 || limit > 500 ==> ClampLimit(limit) == 500
  {
  }

  /** Successive readings of a store in which k's log only grows, and never beyond `bound`. */
  ghost predicate AppendOnly(logs: nat -> Log, k: BlobKey, bound: nat) {
    forall i: nat {:trigger Reading(logs, k, bound, i)} :: Reading(logs, k, bound, i)
  }

  ghost predicate Reading(logs: nat -> Log, k: BlobKey, bound: nat, i: nat) {
    && OneToHead(logs(i).Keys, k)
    && 0 <= HeadSeq(logs(i).Keys, k) <= bound
    && Grows(logs(i), logs(i + 1), k)
  }

  ghost predicate Grows(log: Log, log': Log, k: BlobKey) {
    forall n :: k.At(n) in log ==> k.At(n) in log' && log'[k.At(n)] == log[k.At(n)]
  }

  /** entries are the log's first ones, in order. */
  ghost predicate FirstEntries(log: Log, k: BlobKey, entries: seq<Entry>) {
    forall j :: 0 <= j < |entries| ==> EntryAt(log, k, j + 1, entries[j])
  }

  ghost predicate EntryAt(log: Log, k: BlobKey, n: int, e: Entry) {
    k.At(n) in log && e == EntryOf(k.At(n), log[k.At(n)])
  }

  lemma PageIsNext(log: Log, log': Log, k: BlobKey, entries: seq<Entry>, limit: int)
    requires OneToHead(log.Keys, k) && Grows(log, log', k) && FirstEntries(log, k, entries)
    ensures var page := IndexOf(log, k, |entries| + 1, limit);
            && FirstEntries(log', k, entries + page)
            && (page != [] ==> page[|page| - 1].seqNo == |entries| + |page| <= HeadSeq(log.Keys, k))
  {
    var page := IndexOf(log, k, |entries| + 1, limit);
    forall j | 0 <= j < |entries + page| ensures EntryAt(log', k, j + 1, (entries + page)[j]) {
      assert j < |entries| ==> EntryAt(log, k, j + 1, entries[j]);
      assert k.At(j + 1) in log;
    }
  }

  lemma EmptyPageIsEnd(log: Log, k: BlobKey, entries: seq<Entry>, limit: int)
    requires OneToHead(log.Keys, k) && HeadSeq(log.Keys, k) >= 0 && FirstEntries(log, k, entries)
    requires limit >= 1 && IndexOf(log, k, |entries| + 1, limit) == []
    ensures entries == IndexOf(log, k, 1, 0)
  {
    var whole := IndexOf(log, k, 1, 0);
    assert entries != [] ==> EntryAt(log, k, |entries|, entries[|entries| - 1]);
    assert |entries| == |whole|;
    forall j | 0 <= j < |entries| ensures entries[j] == whole[j] {
      assert EntryAt(log, k, j + 1, entries[j]);
    }
  }

  /**
   * A caller paging with from = last sequence number + 1 and any limits, until a page comes back
   * empty; page i is read from logs(i). As long as the log stays bounded this ends, and what it has
   * collected is the whole log as it is when the last page is read: every entry once, in order,
   * although appends landed in between.
   */
  method CollectIndex(logs: nat -> Log, limits: nat -> int, k: BlobKey, ghost bound: nat)
    returns (entries: seq<Entry>, last: nat)
    requires AppendOnly(logs, k, bound)
    ensures OneToHead(logs(last).Keys, k) && entries == IndexOf(logs(last), k, 1, 0)
  {
    entries, last := [], 0;
    var from := 1;
    assert Reading(logs, k, bound, last);
    while true
      invariant Reading(logs, k, bound, last)
      invariant from == |entries| + 1 <= bound + 1 && FirstEntries(logs(last), k, entries)
      decreases bound + 1 - from
    {
      var limit := ClampLimit(limits(last));
      var page := IndexOf(logs(last), k, from, limit);
      if |page| == 0 {
        EmptyPageIsEnd(logs(last), k, entries, limit);
        return;
      }
      PageIsNext(logs(last), logs(last + 1), k, entries, limit);
      entries, from, last := entries + page, page[|page| - 1].seqNo + 1, last + 1;
      assert Reading(logs, k, bound, last);
    }
  }
}
