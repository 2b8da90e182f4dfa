/**
 * What one call of a store method does to the shared tables, act by act: its own statements, each of
 * them a statement of the one transaction it opens, and before them the turns of all the others.
 */
module PostgresCalls {
  import opened Base
  import opened PostgresModel

  /**
   * What happens before a statement: the steps of others, whether the statement then fails, and, if
   * it is a COMMIT that fails, whether it has landed all the same and only its answer was lost.
   */
  datatype Gap = Gap(others: seq<Step>, fails: bool, landed: bool)

  /** The gap before the i-th statement. */
  type Schedule = nat -> Gap

  predicate Calm(gap: Gap) {
    !gap.fails && gap.others == []
  }

  /** Nobody interferes and nothing fails. */
  ghost predicate Undisturbed(schedule: Schedule) {
    forall i: nat :: Calm(schedule(i))
  }

  function Subject(step: Step): Option<Xid> {
    match step
    case InsertChunk(x, _) => Some(x)
    case EndBody(x) => Some(x)
    case InsertLog(x, _) => Some(x)
    case PkConflict(x) => Some(x)
    case RefuseEmpty(x) => Some(x)
    case CommitAppend(x) => Some(x)
    case Abort(x) => Some(x)
    case SeeChunks(x) => Some(x)
    case DeleteChunks(x) => Some(x)
    case SeeLog(x) => Some(x)
    case DeleteLog(x) => Some(x)
    case CommitDelete(x) => Some(x)
    case _ => None
  }

  /** Where the others' turn leads: of the scripted steps those that are enabled and not transaction `mine`'s. */
  function Interfered(H: Hash, s: State, mine: Option<Xid>, steps: seq<Step>): State
    decreases |steps|
  {
    if steps == [] then s
    else
      var t, step := Interfered(H, s, mine, steps[..|steps| - 1]), steps[|steps| - 1];
      if Enabled(t, step) && (mine.None? || Subject(step) != mine) then Apply(H, t, step) else t
  }

  /** Whatever others can do, they do in their turn: any run of steps that are not transaction `mine`'s. */
  lemma {:induction false} InterferedIsRun(H: Hash, s: State, mine: Option<Xid>, steps: seq<Step>)
    requires Run(H, s, steps).Some?
    requires mine.None? || forall i :: 0 <= i < |steps| ==> Subject(steps[i]) != mine
    ensures Some(Interfered(H, s, mine, steps)) == Run(H, s, steps)
    decreases |steps|
  {
    if steps != [] {
      var init, last := steps[..|steps| - 1], steps[|steps| - 1];
      assert steps == init + [last];
      RunInit(H, s, init, last);
      InterferedIsRun(H, s, mine, init);
    }
  }

  lemma {:induction false} RunInit(H: Hash, s: State, init: seq<Step>, last: Step)
    requires Run(H, s, init + [last]).Some?
    ensures Run(H, s, init).Some? && Enabled(Run(H, s, init).value, last)
    ensures Run(H, s, init + [last]).value == Apply(H, Run(H, s, init).value, last)
    decreases |init|
  {
    if init == [] {
      assert (init + [last])[1..] == [];
    } else {
      assert (init + [last])[0] == init[0] && (init + [last])[1..] == init[1..] + [last];
      RunInit(H, Apply(H, s, init[0]), init[1..], last);
    }
  }

  /** The others' turn, or a statement of one's own. */
  datatype Act = Pause(mine: Option<Xid>, others: seq<Step>) | Own(step: Step)

  /** All that has happened since a call started, the latest last. */
  datatype History = Nothing | After(before: History, act: Act)

  function Acted(H: Hash, s: State, act: Act): Option<State> {
    match act
    case Pause(mine, others) => Some(Interfered(H, s, mine, others))
    case Own(step) => if Enabled(s, step) then Some(Apply(H, s, step)) else None
  }

  function Course(H: Hash, s: State, acts: History): Option<State> {
    match acts
    case Nothing => Some(s)
    case After(before, act) =>
      match Course(H, s, before)
      case None => None
      case Some(t) => Acted(H, t, act)
  }

  function Pauses(acts: History): nat {
    match acts
    case Nothing => 0
    case After(before, act) => Pauses(before) + if act.Pause? then 1 else 0
  }

  /** A call: where it starts, the step that opens its transaction, that transaction, its schedule, and what it has done. */
  datatype Call = Call(start: State, begin: Step, x: Xid, schedule: Schedule, acts: History)
  {
    /** The others have had their first turn, and nothing else has happened. */
    predicate Guarded() {
      acts.After? && acts.before.Nothing?
    }

    /** The transaction has been opened. */
    predicate Opened() {
      acts.After? && acts.before.After?
    }
  }

  /** A call before its first act; its transaction will be the next to be opened once the others have had their turn. */
  function Opening(H: Hash, s: State, begin: Step, schedule: Schedule): Call {
    Call(s, begin, Interfered(H, s, None, schedule(0).others).next, schedule, Nothing)
  }

  function Then(c: Call, act: Act): Call {
    c.(acts := After(c.acts, act))
  }

  /** The same call, at c and at c'; a transaction opened stays so on record. */
  ghost predicate Continues(c: Call, c': Call) {
    c' == c.(acts := c'.acts) && (c.Opened() ==> c'.Opened())
  }

  /** An append runs the statements of an append, a delete those of a delete, and of this transaction only. */
  predicate Belongs(c: Call, step: Step) {
    Subject(step) == Some(c.x) &&
    if c.begin.HeadCheck?
    then step.InsertChunk? || step.EndBody? || step.InsertLog? || step.PkConflict? || step.CommitAppend? || step.Abort?
    else step.SeeChunks? || step.DeleteChunks? || step.SeeLog? || step.DeleteLog? || step.CommitDelete? || step.Abort?
  }

  /**
   * What a call may do next: first the others have their scripted turn, then it opens its
   * transaction, and from then on it runs that transaction's statements, with the others' scripted
   * turns in order in between.
   */
  ghost predicate Proper(c: Call, act: Act) {
    match act
    case Pause(mine, others) =>
      && !c.Guarded() && others == c.schedule(Pauses(c.acts)).others
      && mine == if c.acts.Nothing? then None else Some(c.x)
    case Own(step) => if c.Guarded() then step == c.begin else c.Opened() && Belongs(c, step)
  }

  /** All that the call has done is what such a call may do. */
  ghost predicate Conducts(c: Call)
    decreases c.acts
  {
    match c.acts
    case Nothing => true
    case After(before, act) => Conducts(c.(acts := before)) && Proper(c.(acts := before), act)
  }

  /** The call has conducted itself, and what it did and what the others did meanwhile has led from its start to s. */
  ghost predicate Recorded(H: Hash, c: Call, s: State) {
    Conducts(c) && Course(H, c.start, c.acts) == Some(s)
  }

  lemma RecordedThen(H: Hash, c: Call, s: State, act: Act, t: State)
    requires Recorded(H, c, s) && Proper(c, act) && Acted(H, s, act) == Some(t)
    ensures Recorded(H, Then(c, act), t) && Continues(c, Then(c, act))
    ensures Pauses(Then(c, act).acts) == Pauses(c.acts) + if act.Pause? then 1 else 0
  {
    assert Then(c, act).(acts := c.acts) == c;
  }

  // ---- What that means for the tables ----------------------------------------------------------------

  lemma StepKeepsHistory(H: Hash, s: State, step: Step, w: Xid)
    requires w in s.db.history && Enabled(s, step)
    ensures w in Apply(H, s, step).db.history
  {
  }

  lemma {:induction false} InterferedKeepsHistory(H: Hash, s: State, mine: Option<Xid>, steps: seq<Step>, w: Xid)
    requires w in s.db.history
    ensures w in Interfered(H, s, mine, steps).db.history
    decreases |steps|
  {
    if steps != [] {
      var init, step := steps[..|steps| - 1], steps[|steps| - 1];
      InterferedKeepsHistory(H, s, mine, init, w);
      if Enabled(Interfered(H, s, mine, init), step) {
        StepKeepsHistory(H, Interfered(H, s, mine, init), step, w);
      }
    }
  }

  lemma ActKeepsHistory(H: Hash, s: State, act: Act, w: Xid)
    requires w in s.db.history && Acted(H, s, act).Some?
    ensures w in Acted(H, s, act).value.db.history
  {
    match act {
      case Pause(mine, others) => InterferedKeepsHistory(H, s, mine, others, w);
      case Own(step) => StepKeepsHistory(H, s, step, w);
    }
  }

  function TablesAfter(H: Hash, s: State, acts: History): Option<Tables> {
    match Course(H, s, acts)
    case None => None
    case Some(t) => Some(t.db)
  }

  /** Of all that happened only what others did has changed the tables. */
  predicate LeavesTablesToOthers(H: Hash, s: State, acts: History) {
    match acts
    case Nothing => true
    case After(before, act) =>
      && LeavesTablesToOthers(H, s, before)
      && (act.Own? ==> TablesAfter(H, s, acts) == TablesAfter(H, s, before))
  }

  /** An own statement of an append other than its commit does not touch the tables, and the commit stays in them. */
  lemma OwnStepKeepsTables(H: Hash, c: Call, s: State, step: Step)
    requires c.begin.HeadCheck? && Proper(c, Own(step)) && Enabled(s, step)
    ensures c.x !in Apply(H, s, step).db.history ==> Apply(H, s, step).db == s.db
  {
  }

  /** A call of Append whose transaction has not been committed has not touched the tables. */
  lemma {:induction false} UncommittedLeavesTables(H: Hash, c: Call, s: State)
    requires Recorded(H, c, s) && c.begin.HeadCheck? && c.x !in s.db.history
    ensures LeavesTablesToOthers(H, c.start, c.acts)
    decreases c.acts
  {
    if c.acts.After? {
      var before := c.(acts := c.acts.before);
      var t := Course(H, c.start, before.acts).value;
      if c.x in t.db.history {
        ActKeepsHistory(H, t, c.acts.act, c.x);
      }
      UncommittedLeavesTables(H, before, t);
      if c.acts.act.Own? {
        OwnStepKeepsTables(H, before, t, c.acts.act.step);
      }
    }
  }
}
