/**
 * Retention: exactly when a device loses its newest generation. A prune's guard reads the newest
 * generation in an earlier statement, outside its transaction; as long as the device has not been
 * lowered it protects, however stale it has become, if and only if that read found a row. Only the
 * deletes that can touch the device matter.
 */
module PostgresRetention {
  import opened Base
  import opened BlobKeys
  import opened PostgresModel
  import opened PostgresIntegrity

  datatype Device = Device(pseudonym: string, id: string)
  {
    predicate Has(k: BlobKey) {
      k.OfDevice(pseudonym, id)
    }
  }

  predicate Touches(scope: Scope, d: Device) {
    match scope
    case Generation(p, id, _) => p == d.pseudonym && id == d.id
    case Account(p) => p == d.pseudonym
  }

  function NewestOf(db: Tables, d: Device): Option<int> {
    Newest(db.log.Keys, d.pseudonym, d.id)
  }

  /** The device has lost its newest generation: it is empty now, or its newest is an older one. */
  predicate Lowered(before: Option<int>, after: Option<int>) {
    before.Some? && (after.None? || after.value < before.value)
  }

  /** What a guard that found a row read is not above the newest generation, however stale it has become. */
  predicate GuardHolds(db: Tables, tx: Tx) {
    tx.Deleting? && tx.scope.Generation? && tx.newest.Some? ==>
      var newest := Newest(db.log.Keys, tx.scope.pseudonym, tx.scope.device);
      && tx.scope.generation <= tx.newest.value - RETAINED_GENERATIONS
      && newest.Some? && tx.newest.value <= newest.value
  }

  ghost predicate GuardsHold(s: State, d: Device) {
    forall x :: InDelete(s, x) && Touches(s.open[x].scope, d) ==> GuardHolds(s.db, s.open[x])
  }

  /** The delete holds every log row of the device's newest generation. */
  predicate HoldsNewest(db: Tables, tx: Tx, d: Device)
    requires tx.Deleting? && tx.stage.LogGone?
  {
    forall k :: k in db.log && d.Has(k) && NewestOf(db, d) == Some(k.generation) ==> k in tx.stage.goneLog
  }

  /** An erasure, or a prune of the newest generation. */
  predicate Threatens(db: Tables, tx: Tx, d: Device)
    requires tx.Deleting?
  {
    Touches(tx.scope, d) && (tx.scope.Account? || NewestOf(db, d) == Some(tx.scope.generation))
  }

  /** The step commits such a delete of the device, with all of its newest generation in hand. */
  predicate Unsafe(s: State, step: Step, d: Device)
    requires Enabled(s, step)
  {
    step.CommitDelete? && Threatens(s.db, s.open[step.x], d) && HoldsNewest(s.db, s.open[step.x], d)
  }

  /** An erasure, or a prune whose guard found no row to compare with. */
  predicate Unguarded(tx: Tx)
    requires tx.Deleting?
  {
    tx.scope.Account? || tx.newest.None?
  }

  lemma NewestRow(keys: set<BlobKey>, d: Device) returns (k: BlobKey)
    requires Newest(keys, d.pseudonym, d.id).Some?
    ensures k in keys && d.Has(k) && Newest(keys, d.pseudonym, d.id) == Some(k.generation)
  {
    k :| k in keys && k.OfDevice(d.pseudonym, d.id) && k.generation == Newest(keys, d.pseudonym, d.id).value;
  }

  lemma NewestIsAtLeast(keys: set<BlobKey>, d: Device, k: BlobKey)
    requires k in keys && d.Has(k)
    ensures Newest(keys, d.pseudonym, d.id).Some? && Newest(keys, d.pseudonym, d.id).value >= k.generation
  {
  }

  /** A device is lowered exactly by losing all the rows of its newest generation. */
  lemma LoweredExactly(keys: set<BlobKey>, gone: set<BlobKey>, d: Device)
    requires Newest(keys, d.pseudonym, d.id).Some?
    ensures Lowered(Newest(keys, d.pseudonym, d.id), Newest(keys - gone, d.pseudonym, d.id)) <==>
              forall k :: k in keys && d.Has(k) && Newest(keys, d.pseudonym, d.id) == Some(k.generation) ==> k in gone
  {
    var newest := Newest(keys, d.pseudonym, d.id);
    if k :| k in keys && d.Has(k) && newest == Some(k.generation) && k !in gone {
      NewestIsAtLeast(keys - gone, d, k);
    } else if Newest(keys - gone, d.pseudonym, d.id).Some? {
      var k := NewestRow(keys - gone, d);
      NewestIsAtLeast(keys, d, k);
    }
  }

  /** A prune whose guard, however stale, still tells a generation below the newest holds none of the newest. */
  lemma GuardedHoldsNoNewest(H: Hash, s: State, x: Xid, d: Device)
    requires Inv(H, s) && Enabled(s, CommitDelete(x)) && NewestOf(s.db, d).Some?
    requires GuardHolds(s.db, s.open[x]) && Touches(s.open[x].scope, d) && !Unguarded(s.open[x])
    ensures !HoldsNewest(s.db, s.open[x], d)
  {
    assert TxOk(H, s.db, x, s.open[x]);
    var k := NewestRow(s.db.log.Keys, d);
    assert !s.open[x].scope.Covers(k);
  }

  /** A delete of another device or generation holds none of it. */
  lemma ElsewhereHoldsNoNewest(H: Hash, s: State, x: Xid, d: Device)
    requires Inv(H, s) && Enabled(s, CommitDelete(x)) && NewestOf(s.db, d).Some? && !Threatens(s.db, s.open[x], d)
    ensures !HoldsNewest(s.db, s.open[x], d)
  {
    assert TxOk(H, s.db, x, s.open[x]);
    var k := NewestRow(s.db.log.Keys, d);
    assert !s.open[x].scope.Covers(k);
  }

  /**
   * A step makes the device lose its newest generation if and only if it is the commit of an
   * erasure, or of a prune of that very generation, and holds all of that generation's log rows.
   */
  lemma LosesNewestExactly(H: Hash, s: State, step: Step, d: Device)
    requires Inv(H, s) && Enabled(s, step) && NewestOf(s.db, d).Some?
    ensures Lowered(NewestOf(s.db, d), NewestOf(Apply(H, s, step).db, d)) <==> Unsafe(s, step, d)
  {
    if step.CommitDelete? {
      var tx := s.open[step.x];
      assert Apply(H, s, step).db.log.Keys == s.db.log.Keys - tx.stage.goneLog;
      LoweredExactly(s.db.log.Keys, tx.stage.goneLog, d);
      if !Threatens(s.db, tx, d) {
        ElsewhereHoldsNoNewest(H, s, step.x, d);
      }
    } else {
      NewestKeptByOthers(H, s, step, d);
    }
  }

  /** As long as the device has not been lowered, only an erasure or a prune whose guard read no row can do that. */
  lemma FirstLossIsUnguarded(H: Hash, s: State, step: Step, d: Device)
    requires Inv(H, s) && GuardsHold(s, d) && Enabled(s, step) && NewestOf(s.db, d).Some? && Unsafe(s, step, d)
    ensures Unguarded(s.open[step.x])
  {
    if !Unguarded(s.open[step.x]) {
      assert InDelete(s, step.x);
      GuardedHoldsNoNewest(H, s, step.x, d);
    }
  }

  lemma NewestKeptByOthers(H: Hash, s: State, step: Step, d: Device)
    requires Enabled(s, step) && !step.CommitDelete?
    ensures !Lowered(NewestOf(s.db, d), NewestOf(Apply(H, s, step).db, d))
  {
    if step.CommitAppend? {
      if NewestOf(s.db, d).Some? {
        var k := NewestRow(s.db.log.Keys, d);
        NewestIsAtLeast(Apply(H, s, step).db.log.Keys, d, k);
      }
    } else {
      OnlyCommitsChangeTables(H, s, step);
    }
  }

  /**
   * A prune whose guard read a row, however stale that has become, takes rows of its own generation
   * only, and each of them two or more below a generation that stays.
   */
  lemma PruneTakesOldRowsOnly(H: Hash, s: State, x: Xid)
    requires Inv(H, s) && Enabled(s, CommitDelete(x)) && GuardHolds(s.db, s.open[x])
    requires s.open[x].scope.Generation? && s.open[x].newest.Some?
    ensures var s' := Apply(H, s, CommitDelete(x));
            var scope := s.open[x].scope;
            var after := Newest(s'.db.log.Keys, scope.pseudonym, scope.device);
            && s.db.log.Keys - s'.db.log.Keys == s.open[x].stage.goneLog
            && (forall k :: k in s.open[x].stage.goneLog ==> scope.Covers(k))
            && after == Newest(s.db.log.Keys, scope.pseudonym, scope.device)
            && after.Some? && scope.generation <= after.value - RETAINED_GENERATIONS
  {
    var scope, gone := s.open[x].scope, s.open[x].stage.goneLog;
    HeldRows(H, s, x);
    NewestKept(s.db.log.Keys, gone, Device(scope.pseudonym, scope.device));
  }

  /** What a delete holds are log rows of its scope, and its commit removes exactly those. */
  lemma HeldRows(H: Hash, s: State, x: Xid)
    requires Inv(H, s) && Enabled(s, CommitDelete(x))
    ensures var gone := s.open[x].stage.goneLog;
            && (forall k :: k in gone ==> k in s.db.log && s.open[x].scope.Covers(k))
            && Apply(H, s, CommitDelete(x)).db.log.Keys == s.db.log.Keys - gone
            && s.db.log.Keys - Apply(H, s, CommitDelete(x)).db.log.Keys == gone
  {
    assert TxOk(H, s.db, x, s.open[x]);
  }

  lemma NewestKept(keys: set<BlobKey>, gone: set<BlobKey>, d: Device)
    requires Newest(keys, d.pseudonym, d.id).Some?
    requires forall k :: k in gone ==> k.generation < Newest(keys, d.pseudonym, d.id).value
    ensures Newest(keys - gone, d.pseudonym, d.id) == Newest(keys, d.pseudonym, d.id)
  {
    var k := NewestRow(keys, d);
    NewestIsAtLeast(keys - gone, d, k);
    var after := NewestRow(keys - gone, d);
    NewestIsAtLeast(keys, d, after);
  }

  // ---- Whole runs ------------------------------------------------------------------------------------

  lemma GuardReads(s: State, p: string, d: string, g: int)
    requires Enabled(s, PruneAllowed(p, d, g))
    ensures GuardHolds(s.db, Deleting(Generation(p, d, g), Newest(s.db.log.Keys, p, d), Begun))
  {
  }

  lemma OpenChanges(H: Hash, s: State, step: Step, y: Xid)
    requires Enabled(s, step) && y in Apply(H, s, step).open
    ensures || (y in s.open && (s.open[y].Appending? <==> Apply(H, s, step).open[y].Appending?)
                && (s.open[y].Deleting? ==> SamePrune(s.open[y], Apply(H, s, step).open[y])))
            || (y == s.next && (|| step.HeadCheck? || step.EraseBegin?
                                || (step.PruneAllowed? && Apply(H, s, step).open[y] ==
                                     Deleting(Generation(step.pseudonym, step.device, step.generation),
                                              Newest(s.db.log.Keys, step.pseudonym, step.device), Begun))))
  {
  }

  /** As long as the device is not lowered, guards that found a row stay good. */
  lemma StepKeepsGuards(H: Hash, s: State, step: Step, d: Device)
    requires Inv(H, s) && GuardsHold(s, d) && Enabled(s, step)
    requires !Lowered(NewestOf(s.db, d), NewestOf(Apply(H, s, step).db, d))
    ensures GuardsHold(Apply(H, s, step), d)
  {
    var s' := Apply(H, s, step);
    forall y | InDelete(s', y) && Touches(s'.open[y].scope, d) ensures GuardHolds(s'.db, s'.open[y]) {
      OpenChanges(H, s, step, y);
      if step.PruneAllowed? && y == s.next {
        GuardReads(s, step.pseudonym, step.device, step.generation);
        assert s'.db == s.db;
      } else if y in s.open {
        assert InDelete(s, y) && GuardHolds(s.db, s.open[y]);
      }
    }
  }

  ghost predicate NeverLowered(H: Hash, s: State, steps: seq<Step>, d: Device)
    requires Run(H, s, steps).Some?
    decreases |steps|
  {
    steps != [] ==>
      && !Lowered(NewestOf(s.db, d), NewestOf(Apply(H, s, steps[0]).db, d))
      && NeverLowered(H, Apply(H, s, steps[0]), steps[1..], d)
  }

  /** No step commits an erasure or a prune of the newest generation with all of it in hand. */
  ghost predicate NeverUnsafe(H: Hash, s: State, steps: seq<Step>, d: Device)
    requires Run(H, s, steps).Some?
    decreases |steps|
  {
    steps != [] ==>
      && (NewestOf(s.db, d).Some? ==> !Unsafe(s, steps[0], d))
      && NeverUnsafe(H, Apply(H, s, steps[0]), steps[1..], d)
  }

  /** No step does so for an erasure, or for a prune whose guard read no row. */
  ghost predicate NeverUnguarded(H: Hash, s: State, steps: seq<Step>, d: Device)
    requires Run(H, s, steps).Some?
    decreases |steps|
  {
    steps != [] ==>
      && (NewestOf(s.db, d).Some? ==> !(Unsafe(s, steps[0], d) && Unguarded(s.open[steps[0].x])))
      && NeverUnguarded(H, Apply(H, s, steps[0]), steps[1..], d)
  }

  /**
   * Over every run, from any state: a device's newest generation never decreases, and the device is
   * never emptied, if and only if no step on the way commits an erasure of its account, or a prune
   * of its newest generation, with all of that generation in hand.
   */
  lemma {:induction false} RetentionExactly(H: Hash, s: State, steps: seq<Step>, d: Device)
    requires Inv(H, s) && Run(H, s, steps).Some?
    ensures NeverLowered(H, s, steps, d) <==> NeverUnsafe(H, s, steps, d)
    decreases |steps|
  {
    if steps != [] {
      var s' := Apply(H, s, steps[0]);
      StepKeepsIntegrity(H, s, steps[0]);
      if NewestOf(s.db, d).Some? {
        LosesNewestExactly(H, s, steps[0], d);
      }
      RetentionExactly(H, s', steps[1..], d);
    }
  }

  /**
   * From any state in which the guards that found a row still hold, as they do in the beginning, it is
   * enough to look at erasures and at prunes whose guard read no row.
   */
  lemma {:induction false} UnguardedExactly(H: Hash, s: State, steps: seq<Step>, d: Device)
    requires Inv(H, s) && GuardsHold(s, d) && Run(H, s, steps).Some?
    ensures NeverLowered(H, s, steps, d) <==> NeverUnguarded(H, s, steps, d)
    decreases |steps|
  {
    if steps != [] {
      var s' := Apply(H, s, steps[0]);
      StepKeepsIntegrity(H, s, steps[0]);
      if NewestOf(s.db, d).Some? {
        LosesNewestExactly(H, s, steps[0], d);
        if Unsafe(s, steps[0], d) {
          FirstLossIsUnguarded(H, s, steps[0], d);
        }
      }
      if !Lowered(NewestOf(s.db, d), NewestOf(s'.db, d)) {
        StepKeepsGuards(H, s, steps[0], d);
        UnguardedExactly(H, s', steps[1..], d);
      }
    }
  }

  /** Every open delete that can touch the device is a prune whose guard found a row. */
  ghost predicate PrunesRead(s: State, d: Device) {
    forall x :: InDelete(s, x) && Touches(s.open[x].scope, d) ==> s.open[x].scope.Generation? && s.open[x].newest.Some?
  }

  ghost predicate AllPrunesRead(H: Hash, s: State, steps: seq<Step>, d: Device)
    requires Run(H, s, steps).Some?
    decreases |steps|
  {
    PrunesRead(s, d) && (steps != [] ==> AllPrunesRead(H, Apply(H, s, steps[0]), steps[1..], d))
  }

  lemma {:induction false} ReadPrunesAreSafe(H: Hash, s: State, steps: seq<Step>, d: Device)
    requires Run(H, s, steps).Some? && AllPrunesRead(H, s, steps, d)
    ensures NeverUnguarded(H, s, steps, d)
    decreases |steps|
  {
    if steps != [] {
      assert steps[0].CommitDelete? ==> InDelete(s, steps[0].x);
      ReadPrunesAreSafe(H, Apply(H, s, steps[0]), steps[1..], d);
    }
  }

  lemma {:induction false} NeverLoweredRises(H: Hash, s: State, steps: seq<Step>, d: Device)
    requires Run(H, s, steps).Some? && NeverLowered(H, s, steps, d) && NewestOf(s.db, d).Some?
    ensures var after := NewestOf(Run(H, s, steps).value.db, d);
            after.Some? && NewestOf(s.db, d).value <= after.value
    decreases |steps|
  {
    if steps != [] {
      NeverLoweredRises(H, Apply(H, s, steps[0]), steps[1..], d);
    }
  }

  /**
   * In every run in which the device's account is not erased and the guards of the device's prunes
   * all read a row, stale or not, whatever happens to other devices and accounts: its newest
   * generation never decreases and it is never emptied.
   */
  lemma NewestGenerationNeverDecreases(H: Hash, s: State, steps: seq<Step>, d: Device)
    requires Inv(H, s) && GuardsHold(s, d) && Run(H, s, steps).Some? && AllPrunesRead(H, s, steps, d)
    requires NewestOf(s.db, d).Some?
    ensures var after := NewestOf(Run(H, s, steps).value.db, d);
            after.Some? && NewestOf(s.db, d).value <= after.value
  {
    ReadPrunesAreSafe(H, s, steps, d);
    UnguardedExactly(H, s, steps, d);
    NeverLoweredRises(H, s, steps, d);
  }
}
