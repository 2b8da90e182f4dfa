/**
 * Tenants of one memory store cannot observe each other. A request here is one lock section, so
 * the statements cover every interleaving of two-phase appends with everything else.
 */
module Tenancy {
  import opened Base
  import opened BlobKeys
  import opened AtomicLog
  import opened LogQueries
  import opened Encodings
  import opened MemoryRows
  import opened MemoryStore

  datatype Request =
    | Check(key: BlobKey)
    | Commit(row: Row)
    | Get(key: BlobKey)
    | Index(key: BlobKey, from: int, limit: int)
    | Manifest(account: string)
    | Prune(account: string, device: string, generation: int)
    | Erase(account: string)
  {
    function Tenant(): string {
      match this
      case Check(k) => k.pseudonym
      case Commit(row) => row.key.pseudonym
      case Get(k) => k.pseudonym
      case Index(k, _, _) => k.pseudonym
      case Manifest(p) => p
      case Prune(p, _, _) => p
      case Erase(p) => p
    }
  }

  datatype Answer =
    | Expected(seqNo: int)
    | Heard(outcome: Outcome)
    | Found(blob: Option<Bytes>)
    | Page(entries: seq<Entry>)
    | Summaries(devices: seq<Summary>)

  /** On log, the request gets this answer and leaves log'. */
  ghost predicate Answers(log: Log, req: Request, ans: Answer, log': Log) {
    match req
    case Check(k) => log' == log && ans == Expected(HeadSeq(log.Keys, k) + 1)
    case Commit(row) => (log', ans) == Both(AtomicLog.Append(log, row.key, row.Blob()))
    case Get(k) => log' == log && ans == Found(if k in log then Some(log[k].data) else None)
    case Index(k, from, limit) =>
      log' == log && OneToHead(log.Keys, k) && ans == Page(IndexOf(log, k, from, limit))
    case Manifest(p) => log' == log && ans.Summaries? && IsManifest(log, p, ans.devices)
    case Prune(p, d, g) => (log', ans) == Both(AtomicLog.Prune(log, p, d, g))
    case Erase(p) => (log', ans) == Both(AtomicLog.Erase(log, Account(p)))
  }

  function Both(r: (Log, Outcome)): (Log, Answer) {
    (r.0, Heard(r.1))
  }

  /** The two logs hold the same entries of tenant p. */
  ghost predicate Agree(a: Log, b: Log, p: string) {
    forall k: BlobKey :: k.pseudonym == p ==> (k in a <==> k in b) && (k in a ==> a[k] == b[k])
  }

  lemma HeadAgrees(a: Log, b: Log, k: BlobKey)
    requires Contiguous(a.Keys) && Contiguous(b.Keys) && Agree(a, b, k.pseudonym)
    ensures HeadSeq(a.Keys, k) == HeadSeq(b.Keys, k)
  {
    HeadIsLength(a.Keys, k);
    HeadIsLength(b.Keys, k);
    var i, j := HeadSeq(a.Keys, k), HeadSeq(b.Keys, k);
    assert k.At(i) in a.Keys <==> k.At(i) in b.Keys;
    assert k.At(j) in a.Keys <==> k.At(j) in b.Keys;
  }

  lemma NewestAgrees(a: Log, b: Log, p: string, d: string)
    requires Agree(a, b, p)
    ensures Newest(a.Keys, p, d) == Newest(b.Keys, p, d)
  {
    assert forall k: BlobKey :: k.pseudonym == p ==> (k in a.Keys <==> k in b.Keys);
  }

  lemma CoveredAgrees(a: Log, b: Log, p: string, scope: Scope)
    requires Agree(a, b, p) && scope.pseudonym == p
    ensures Covered(a, scope) == Covered(b, scope)
  {
    assert forall k :: scope.Covers(k) ==> k.pseudonym == p;
  }

  lemma IndexAgrees(a: Log, b: Log, k: BlobKey, from: int, limit: int)
    requires Contiguous(a.Keys) && Contiguous(b.Keys) && Agree(a, b, k.pseudonym)
    requires OneToHead(a.Keys, k) && OneToHead(b.Keys, k)
    ensures IndexOf(a, k, from, limit) == IndexOf(b, k, from, limit)
  {
    HeadAgrees(a, b, k);
    var x, y := IndexOf(a, k, from, limit), IndexOf(b, k, from, limit);
    forall i | 0 <= i < |x| ensures x[i] == y[i] {
      var n := (if from < 1 then 1 else from) + i;
      assert k.At(n) in a.Keys && k.At(n).pseudonym == k.pseudonym;
    }
  }

  lemma {:induction false} BytesAgree(a: Log, b: Log, keys: set<BlobKey>)
    requires keys <= a.Keys && keys <= b.Keys && forall k :: k in keys ==> a[k] == b[k]
    ensures TotalBytes(a, keys) == TotalBytes(b, keys)
    decreases |keys|
  {
    if keys != {} {
      BytesAgree(a, b, keys - {AnyOf(keys)});
    }
  }

  lemma SummaryAgrees(a: Log, b: Log, p: string, s: Summary)
    requires Agree(a, b, p) && Summarizes(a, p, s)
    ensures Summarizes(b, p, s)
  {
    var group := Group(a, p, s.device, s.generation);
    assert group == Group(b, p, s.device, s.generation);
    BytesAgree(a, b, group);
    var k :| k in group && a[k].createdAt == s.updatedAt;
    assert b[k].createdAt == s.updatedAt;
  }

  lemma ManifestAgrees(a: Log, b: Log, p: string, x: seq<Summary>, y: seq<Summary>)
    requires Agree(a, b, p) && IsManifest(a, p, x) && IsManifest(b, p, y)
    ensures x == y
  {
    forall s | s in x ensures Summarizes(b, p, s) {
      SummaryAgrees(a, b, p, s);
    }
    ManifestUnique(b, p, x, y);
  }

  lemma EraseAgrees(a: Log, b: Log, p: string, scope: Scope)
    requires Agree(a, b, p) && scope.pseudonym == p
    ensures AtomicLog.Erase(a, scope).1 == AtomicLog.Erase(b, scope).1
    ensures Agree(AtomicLog.Erase(a, scope).0, AtomicLog.Erase(b, scope).0, p)
  {
    CoveredAgrees(a, b, p, scope);
  }

  /** What a tenant is told, and what it leaves itself, depend on its own entries only. */
  lemma SameEntriesSameAnswer(a: Log, b: Log, req: Request, x: Answer, a': Log, y: Answer, b': Log)
    requires Contiguous(a.Keys) && Contiguous(b.Keys) && Agree(a, b, req.Tenant())
    requires Answers(a, req, x, a') && Answers(b, req, y, b')
    ensures x == y && Agree(a', b', req.Tenant())
  {
    match req {
      case Check(k) => HeadAgrees(a, b, k);
      case Commit(row) => HeadAgrees(a, b, row.key);
      case Get(k) =>
      case Index(k, from, limit) => IndexAgrees(a, b, k, from, limit);
      case Manifest(p) => ManifestAgrees(a, b, p, x.devices, y.devices);
      case Prune(p, d, g) =>
        NewestAgrees(a, b, p, d);
        EraseAgrees(a, b, p, Generation(p, d, g));
      case Erase(p) => EraseAgrees(a, b, p, Account(p));
    }
  }

  /** A tenant's request leaves every other tenant's entries as they are. */
  lemma OthersUntouched(log: Log, req: Request, ans: Answer, log': Log, other: string)
    requires Answers(log, req, ans, log') && other != req.Tenant()
    ensures Agree(log, log', other)
  {
  }

  lemma AnswersKeepContiguous(log: Log, req: Request, ans: Answer, log': Log)
    requires Contiguous(log.Keys) && Answers(log, req, ans, log')
    ensures Contiguous(log'.Keys)
  {
    match req {
      case Commit(row) => AppendKeepsContiguous(log, row.key, row.Blob());
      case Prune(p, d, g) => EraseKeepsContiguous(log, Generation(p, d, g));
      case Erase(p) => EraseKeepsContiguous(log, Account(p));
      case _ =>
    }
  }

  // ---- Whole runs ------------------------------------------------------------------------------------

  datatype Turn = Turn(req: Request, ans: Answer, after: Log)

  /** The turns are a run of the store from log. */
  ghost predicate History(log: Log, turns: seq<Turn>)
    decreases |turns|
  {
    turns == [] || (Answers(log, turns[0].req, turns[0].ans, turns[0].after) && History(turns[0].after, turns[1..]))
  }

  /** What one tenant asks, in order, and what it hears. */
  function Asked(turns: seq<Turn>, p: string): seq<Request> {
    if turns == [] then [] else (if turns[0].req.Tenant() == p then [turns[0].req] else []) + Asked(turns[1..], p)
  }

  function Told(turns: seq<Turn>, p: string): seq<Answer> {
    if turns == [] then [] else (if turns[0].req.Tenant() == p then [turns[0].ans] else []) + Told(turns[1..], p)
  }

  /** What a tenant asked and was told is its own turns, all of them and in order. */
  lemma {:induction false} OwnTurns(turns: seq<Turn>, more: seq<Turn>, p: string)
    ensures |Asked(turns, p)| == |Told(turns, p)|
    ensures Asked(turns + more, p) == Asked(turns, p) + Asked(more, p)
    ensures Told(turns + more, p) == Told(turns, p) + Told(more, p)
    decreases |turns|
  {
    if turns == [] {
      assert turns + more == more;
    } else {
      OwnTurns(turns[1..], more, p);
      FirstTurn(turns, more, p);
      var mine := turns[0].req.Tenant() == p;
      Regroup(if mine then [turns[0].req] else [], Asked(turns[1..], p), Asked(more, p));
      Regroup(if mine then [turns[0].ans] else [], Told(turns[1..], p), Told(more, p));
    }
  }

  lemma Regroup<T>(a: seq<T>, b: seq<T>, c: seq<T>)
    ensures a + (b + c) == a + b + c
  {
  }

  lemma FirstTurn(turns: seq<Turn>, more: seq<Turn>, p: string)
    requires turns != []
    ensures Asked(turns + more, p) ==
              (if turns[0].req.Tenant() == p then [turns[0].req] else []) + Asked(turns[1..] + more, p)
    ensures Told(turns + more, p) ==
              (if turns[0].req.Tenant() == p then [turns[0].ans] else []) + Told(turns[1..] + more, p)
  {
    assert (turns + more)[0] == turns[0] && (turns + more)[1..] == turns[1..] + more;
  }

  lemma OneTurn(turn: Turn, p: string)
    ensures Asked([turn], p) == (if turn.req.Tenant() == p then [turn.req] else [])
    ensures Told([turn], p) == (if turn.req.Tenant() == p then [turn.ans] else [])
  {
    assert [turn][1..] == [];
  }

  /** Someone else's turn can be dropped from the front of a run. */
  lemma ForeignTurn(a: Log, b: Log, turns: seq<Turn>, p: string)
    requires Contiguous(a.Keys) && Agree(a, b, p) && History(a, turns) && turns != [] && turns[0].req.Tenant() != p
    ensures Contiguous(turns[0].after.Keys) && Agree(turns[0].after, b, p) && History(turns[0].after, turns[1..])
    ensures Asked(turns[1..], p) == Asked(turns, p) && Told(turns[1..], p) == Told(turns, p)
  {
    var t := turns[0];
    OthersUntouched(a, t.req, t.ans, t.after, p);
    AnswersKeepContiguous(a, t.req, t.ans, t.after);
  }

  /**
   * Non-interference over whole runs: start from any two states that agree on tenant p's entries,
   * let p ask the same things in both, and let the other tenants do anything at all, different in
   * each run and interleaved in any way: p hears the same answers.
   */
  lemma {:induction false} NonInterference(a: Log, b: Log, one: seq<Turn>, two: seq<Turn>, p: string)
    requires Contiguous(a.Keys) && Contiguous(b.Keys) && Agree(a, b, p)
    requires History(a, one) && History(b, two) && Asked(one, p) == Asked(two, p)
    ensures Told(one, p) == Told(two, p)
    decreases |one| + |two|
  {
    if one != [] && one[0].req.Tenant() != p {
      ForeignTurn(a, b, one, p);
      NonInterference(one[0].after, b, one[1..], two, p);
    } else if two != [] && two[0].req.Tenant() != p {
      ForeignTurn(b, a, two, p);
      NonInterference(a, two[0].after, one, two[1..], p);
    } else if one != [] {
      assert Asked(one, p)[0] == one[0].req && Asked(one, p)[1..] == Asked(one[1..], p);
      var s, t := one[0], two[0];
      assert Asked(two, p)[0] == t.req && Asked(two, p)[1..] == Asked(two[1..], p);
      SameEntriesSameAnswer(a, b, s.req, s.ans, s.after, t.ans, t.after);
      AnswersKeepContiguous(a, s.req, s.ans, s.after);
      AnswersKeepContiguous(b, t.req, t.ans, t.after);
      NonInterference(s.after, t.after, one[1..], two[1..], p);
    }
  }

  // ---- The store answers like this -------------------------------------------------------------------

  predicate CleanRequest(H: Hash, req: Request) {
    match req
    case Commit(row) => OpOk(H, Op.Commit(row))
    case _ => true
  }

  /** One lock section of the memory store. */
  method Serve(store: Store, req: Request) returns (ans: Answer)
    requires store.Valid() && CleanRequest(store.H, req)
    modifies store
    ensures store.Valid() && Answers(old(store.Log()), req, ans, store.Log())
  {
    match req {
      case Check(k) =>
        var head := store.HeadSeqLocked(k);
        ans := Expected(head + 1);
      case Commit(row) =>
        var outcome := store.CommitAppend(row);
        ans := Heard(outcome);
      case Get(k) =>
        var found := store.Get(k);
        ans := Found(found);
      case Index(k, from, limit) =>
        var page := store.Index(k, from, limit);
        ans := Page(page);
      case Manifest(p) =>
        var devices := store.Manifest(p);
        ans := Summaries(devices);
      case Prune(p, d, g) =>
        var outcome := store.DeleteGeneration(p, d, g);
        ans := Heard(outcome);
      case Erase(p) =>
        var outcome := store.DeleteAccount(p);
        ans := Heard(outcome);
    }
  }
}
