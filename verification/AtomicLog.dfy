/** The specification both stores are measured against: an append-only log changed by atomic operations. */
module AtomicLog {
  import opened Base
  import opened BlobKeys

  datatype Blob = Blob(data: Bytes, sha: string, prev: string, createdAt: nat)

  type Log = map<BlobKey, Blob>

  /** What the caller of a store operation hears; Unavailable is any error of the database itself. */
  datatype Outcome =
    | Stored(sha: string, size: nat)
    | SeqConflict
    | EmptyBlob
    | ReadFailed(err: ReadErr)
    | RetentionGuard
    | Removed(count: nat)
    | Unavailable

  /** An entry is accepted only in the slot right after the head of its log. */
  function Append(log: Log, k: BlobKey, blob: Blob): (Log, Outcome) {
    if k.seqNo == HeadSeq(log.Keys, k) + 1
    then (log[k := blob], Stored(blob.sha, |blob.data|))
    else (log, SeqConflict)
  }

  function Covered(log: Log, scope: Scope): set<BlobKey> {
    set k | k in log && scope.Covers(k)
  }

  function Erase(log: Log, scope: Scope): (Log, Outcome) {
    (log - Covered(log, scope), Removed(|Covered(log, scope)|))
  }

  function Prune(log: Log, pseudonym: string, device: string, generation: int): (Log, Outcome) {
    if GuardRefuses(Newest(log.Keys, pseudonym, device), generation)
    then (log, RetentionGuard)
    else Erase(log, Generation(pseudonym, device, generation))
  }

  /** log' is log without the entries of one generation, or of an account, and outcome their number. */
  ghost predicate Removes(log: Log, log': Log, gone: BlobKey -> bool, outcome: Outcome) {
    && outcome == Removed(|log.Keys - log'.Keys|)
    && (forall k :: k in log' <==> k in log && !gone(k))
    && (forall k :: k in log' ==> log'[k] == log[k])
  }

  /** A prune is refused exactly while the generation is retained, and otherwise removes exactly that generation. */
  ghost predicate PruneAnswers(
    log: Log, log': Log, pseudonym: string, device: string, generation: int, outcome: Outcome)
  {
    if Retained(log.Keys, pseudonym, device, generation)
    then outcome == RetentionGuard && log' == log
    else Removes(log, log', (k: BlobKey) => OfGeneration(k, pseudonym, device, generation), outcome)
  }

  lemma PruneExactly(log: Log, pseudonym: string, device: string, generation: int)
    ensures var (log', outcome) := Prune(log, pseudonym, device, generation);
            PruneAnswers(log, log', pseudonym, device, generation, outcome)
  {
    GuardRefusesExactly(log.Keys, pseudonym, device, generation);
    var covered := Covered(log, Generation(pseudonym, device, generation));
    assert log.Keys - (log - covered).Keys == covered;
  }

  lemma EraseAccountExactly(log: Log, pseudonym: string)
    ensures var (log', outcome) := Erase(log, Account(pseudonym));
            Removes(log, log', (k: BlobKey) => k.pseudonym == pseudonym, outcome)
  {
    var covered := Covered(log, Account(pseudonym));
    assert log.Keys - (log - covered).Keys == covered;
  }

  lemma AppendKeepsContiguous(log: Log, k: BlobKey, blob: Blob)
    requires Contiguous(log.Keys)
    ensures Contiguous(Append(log, k, blob).0.Keys)
  {
    NextSlot(log.Keys, k);
    var log' := Append(log, k, blob).0;
    forall r | r in log'.Keys ensures Linked(log'.Keys, r) {
      assert r in log.Keys ==> Linked(log.Keys, r);
    }
  }

  /** A delete removes whole logs, so it cannot leave a gap. */
  lemma EraseKeepsContiguous(log: Log, scope: Scope)
    requires Contiguous(log.Keys)
    ensures Contiguous(Erase(log, scope).0.Keys)
  {
    var log' := Erase(log, scope).0;
    forall k | k in log'.Keys ensures Linked(log'.Keys, k) {
      assert Linked(log.Keys, k);
      assert scope.Covers(k.At(k.seqNo - 1)) ==> scope.Covers(k);
    }
  }
}
