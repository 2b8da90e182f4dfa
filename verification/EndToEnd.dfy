/**
 * From the client's proof to the stored entry: the upload route is a run of the service's state
 * machine, and in every such run an entry is where its client's proof put it.
 */
module EndToEnd {
  import opened Base
  import opened BlobKeys
  import opened AtomicLog
  import opened Decimal
  import opened Encodings
  import opened NonceStores
  import opened AuthProof
  import opened UploadRoute
  import opened Readers
  import MemoryStore
  import Admissions
  import Client

  type State = Admissions.State
  type Config = Admissions.Config

  function RequestOf(r: Post): Incoming {
    Incoming(POST, r.uri, r.authHeader)
  }

  /** What the router and the query parameters make of an addressable request's target. */
  ghost predicate SameWorld(c: Config, r: Post, world: World) {
    && c.wallet == world.wallet && c.decode == world.decode
    && (Addressable(r) ==>
          c.route(r.uri) == Some(Admissions.Target(
            r.device, PositiveIntParam(r.generationParam).value, PositiveIntParam(r.seqParam).value, r.prev)))
  }

  lemma {:induction false} RunAppend(c: Config, s: State, a: seq<Admissions.Step>, b: seq<Admissions.Step>)
    ensures Admissions.Run(c, s, a + b) ==
              match Admissions.Run(c, s, a) case None => None case Some(t) => Admissions.Run(c, t, b)
    decreases |a|
  {
    if a == [] {
      assert a + b == b;
    } else {
      assert a + b == [a[0]] + (a[1..] + b);
      assert (a + b)[1..] == a[1..] + b;
      if Admissions.Enabled(c, s, a[0]) {
        RunAppend(c, Admissions.Apply(c, s, a[0]), a[1..], b);
      }
    }
  }

  // ---- The middleware --------------------------------------------------------------------------------

  /** The admission that a request, admitted with this reply, stands for. */
  ghost predicate AdmissionFor(c: Config, a: Admissions.Admission, r: Post, reply: Reply)
    requires reply.Admitted?
  {
    a.request == RequestOf(r) && a.digest == reply.digest && Signed(c.wallet, a.proof) == Genuine(reply.account)
  }

  /** After the arrival: the nonces as the middleware left them, one admission more if it admitted, all else as it was. */
  ghost predicate Arrived(c: Config, s: State, s1: State, seen: Records, r: Post, reply: Reply) {
    && s1.records == seen && s1.log == s.log && s1.added == s.added && s1.handled == s.handled
    && if reply.Admitted?
       then |s1.admitted| == |s.admitted| + 1 && s1.admitted[..|s.admitted|] == s.admitted &&
            AdmissionFor(c, s1.admitted[|s.admitted|], r, reply)
       else s1.admitted == s.admitted
  }

  /** A request the service is about to look at. */
  ghost predicate Arrives(c: Config, s: State, id: nat, r: Post, world: World) {
    SameWorld(c, r, world) && RequestLine(POST, r.uri) && id !in s.pending && s.clock == world.verifiedAt
  }

  /** Verify: a step if the proof holds, and the whole answer if it does not. */
  lemma VerifyIsStep(c: Config, s: State, id: nat, r: Post, world: World, seen: Records)
    requires Arrives(c, s, id, r, world)
    ensures var judged := AuthProof.Judge(c.wallet, c.decode, RequestOf(r), s.clock);
            var step := Admissions.Deliver(id, RequestOf(r));
            && (Admissions.Enabled(c, s, step) <==> judged.Sound?)
            && if judged.Sound?
               then Admissions.Apply(c, s, step) == s.(pending := s.pending[id := VerifiedOf(judged, r, s.clock)])
               else ReplyTo(seen, r, world) == (seen, Refused(judged.reason))
  {
  }

  function VerifiedOf(judged: Judgement, r: Post, at: int): Admissions.Verified
    requires judged.Sound?
  {
    Admissions.Verified(judged.proof, RequestOf(r), judged.digest, at)
  }

  /** The request, verified at `at`, is about to have its nonce consumed. */
  ghost predicate Pending(c: Config, s: State, id: nat, r: Post, world: World) {
    var judged := AuthProof.Judge(c.wallet, c.decode, RequestOf(r), world.verifiedAt);
    && SameWorld(c, r, world) && RequestLine(POST, r.uri) && s.clock == world.consumedAt
    && judged.Sound? && id in s.pending && s.pending[id] == VerifiedOf(judged, r, world.verifiedAt)
  }

  /** Consume: whatever has happened since Verify, two steps lead to the nonces and the answer of the middleware. */
  lemma ConsumeIsRun(c: Config, s: State, id: nat, r: Post, world: World)
    requires Pending(c, s, id, r, world)
    ensures Admissions.Run(c, s, [Admissions.Sweep, Admissions.Consume(id)]) == Some(Admissions.SweepAndConsume(c, s, id))
    ensures var (seen, reply) := ReplyTo(s.records, r, world);
            Arrived(c, s, Admissions.SweepAndConsume(c, s, id), seen, r, reply)
  {
    var judged := AuthProof.Judge(c.wallet, c.decode, RequestOf(r), world.verifiedAt);
    SoundExactly(c.wallet, c.decode, RequestOf(r), world.verifiedAt, judged.proof, judged.digest);
    Admissions.RunOne(c, Admissions.Apply(c, s, Admissions.Sweep), Admissions.Consume(id), []);
    Admissions.RunOne(c, s, Admissions.Sweep, [Admissions.Consume(id)] + []);
    assert [Admissions.Sweep] + ([Admissions.Consume(id)] + []) == [Admissions.Sweep, Admissions.Consume(id)];
  }

  // ---- The middleware with the PostgreSQL nonce store ------------------------------------------------

  /** The request, verified at `at`, waits for its nonce to be consumed. */
  ghost predicate Awaits(c: Config, s: State, id: nat, r: Incoming, at: int) {
    var judged := AuthProof.Judge(c.wallet, c.decode, r, at);
    && RequestLine(r.method', r.uri) && judged.Sound? && id in s.pending
    && s.pending[id] == Admissions.Verified(judged.proof, r, judged.digest, at)
  }

  /** What a call of that store comes to: a sweep now and then, and a Consume that may fail and may land all the same. */
  function PersistentSteps(id: nat, luck: Luck): seq<Admissions.Step> {
    var step := LastStep(id, luck);
    if luck.die == 0 && (!luck.sweepFails || luck.landed) then [Admissions.Sweep] + [step] else [step]
  }

  function LastStep(id: nat, luck: Luck): Admissions.Step {
    if luck.die == 0 && luck.sweepFails then Admissions.ConsumeFails(id, false)
    else if luck.insertFails then Admissions.ConsumeFails(id, luck.landed)
    else Admissions.Consume(id)
  }

  /** After it: the table as the store left it, one admission more if it admitted, all else as it was. */
  ghost predicate ArrivedPersistently(
    c: Config, s: State, s1: State, table: Records, r: Incoming, reply: Option<Reply>)
  {
    && s1.records == table && s1.log == s.log && s1.added == s.added && s1.handled == s.handled
    && if reply.Some? && reply.value.Admitted?
       then |s1.admitted| == |s.admitted| + 1 && s1.admitted[..|s.admitted|] == s.admitted &&
            var a := s1.admitted[|s.admitted|];
            && a.request == r && a.digest == reply.value.digest
            && Signed(c.wallet, a.proof) == Genuine(reply.value.account)
       else s1.admitted == s.admitted
  }

  lemma OneStep(c: Config, s: State, step: Admissions.Step)
    requires Admissions.Enabled(c, s, step)
    ensures Admissions.Run(c, s, [step]) == Some(Admissions.Apply(c, s, step))
  {
    assert [step] + [] == [step];
    Admissions.RunOne(c, s, step, []);
  }

  /** The records that the insert finds. */
  function FoundBy(records: Records, now: int, luck: Luck): Records {
    if luck.die == 0 && (!luck.sweepFails || luck.landed) then Swept(records, now) else records
  }

  /** The table left and the answer, given the records that the insert finds. */
  function Left(found: Records, c: Config, v: Admissions.Verified, now: int, luck: Luck): (Records, Option<Reply>) {
    var (inserted, unused) := Insert(found, Call(v.proof.nonce, FromMilli(v.proof.expiresAt), now));
    if luck.die == 0 && luck.sweepFails then (found, None)
    else if luck.insertFails then (if luck.landed then inserted else found, None)
    else (inserted, Some(if unused && Signed(c.wallet, v.proof).Genuine?
                         then Admitted(Signed(c.wallet, v.proof).account, v.digest) else Refused(AlreadyUsed)))
  }

  lemma PersistentReply(c: Config, records: Records, v: Admissions.Verified, now: int, luck: Luck)
    requires RequestLine(v.request.method', v.request.uri)
    requires AuthProof.Judge(c.wallet, c.decode, v.request, v.at) == Sound(v.proof, v.digest)
    ensures AuthenticatedPersistently(records, c.wallet, c.decode, v.request, v.at, now, luck) ==
              Left(FoundBy(records, now, luck), c, v, now, luck)
  {
    SoundExactly(c.wallet, c.decode, v.request, v.at, v.proof, v.digest);
  }

  /** The step itself, the sweep, if any, having been done. */
  lemma PersistentStep(c: Config, s: State, id: nat, r: Incoming, at: int, luck: Luck)
    requires Awaits(c, s, id, r, at)
    ensures var step := LastStep(id, luck);
            var (table, reply) := Left(s.records, c, s.pending[id], s.clock, luck);
            Admissions.Enabled(c, s, step) && ArrivedPersistently(c, s, Admissions.Apply(c, s, step), table, r, reply)
  {
    var judged := AuthProof.Judge(c.wallet, c.decode, r, at);
    SoundExactly(c.wallet, c.decode, r, at, judged.proof, judged.digest);
  }

  lemma SweptArrives(c: Config, s: State, s1: State, table: Records, r: Incoming, reply: Option<Reply>)
    requires ArrivedPersistently(c, Admissions.Apply(c, s, Admissions.Sweep), s1, table, r, reply)
    ensures ArrivedPersistently(c, s, s1, table, r, reply)
  {
  }

  /**
   * Whatever has happened since Verify, and whichever of its statements fail or land, what the
   * middleware does with the PostgreSQL nonce store is a run of the service's state machine, to the
   * table that store is left with and to one admission if the request is admitted.
   */
  lemma PersistentConsumeIsRun(c: Config, s: State, id: nat, r: Incoming, at: int, luck: Luck)
    requires Awaits(c, s, id, r, at)
    ensures var (table, reply) := AuthenticatedPersistently(s.records, c.wallet, c.decode, r, at, s.clock, luck);
            var s1 := Admissions.Run(c, s, PersistentSteps(id, luck));
            s1.Some? && ArrivedPersistently(c, s, s1.value, table, r, reply)
  {
    var (table, reply) := AuthenticatedPersistently(s.records, c.wallet, c.decode, r, at, s.clock, luck);
    PersistentReply(c, s.records, s.pending[id], s.clock, luck);
    if luck.die == 0 && (!luck.sweepFails || luck.landed) {
      var swept := Admissions.Apply(c, s, Admissions.Sweep);
      PersistentStep(c, swept, id, r, at, luck);
      OneStep(c, swept, LastStep(id, luck));
      Admissions.RunOne(c, s, Admissions.Sweep, [LastStep(id, luck)]);
      SweptArrives(c, s, Admissions.Apply(c, swept, LastStep(id, luck)), table, r, reply);
    } else {
      PersistentStep(c, s, id, r, at, luck);
      OneStep(c, s, LastStep(id, luck));
    }
  }

  // ---- The store -------------------------------------------------------------------------------------

  /** The upload's own step, if it has one, in the state its second check finds. */
  function StoreStep(i: nat, u: Upload): Admissions.Step {
    Admissions.Upload(i, Delivered(u.body.script), u.world.createdAt)
  }

  /** The admitted upload waits, unhandled, in a state whose log is the one its second check finds. */
  ghost predicate Waits(c: Config, s: State, i: nat, u: Upload, before: Log) {
    && i < |s.admitted| && i !in s.handled
    && AdmissionFor(c, s.admitted[i], u.post, Admitted(u.account, u.body.want))
    && s.log == Meanwhile(u, before)
  }

  /** A delete that is not refused is one step, whatever it finds. */
  lemma DeleteIsStep(c: Config, s: State, op: MemoryStore.Op)
    requires !op.Commit?
    ensures var (log, outcome) := MemoryStore.SpecOp(s.log, op);
            var scope := if op.Prune? then Generation(op.pseudonym, op.device, op.generation) else Account(op.pseudonym);
            if outcome.Removed? then Admissions.Run(c, s, [Admissions.Delete(scope)]) == Some(s.(log := log))
            else op.Prune? && outcome == RetentionGuard && log == s.log
  {
    OneStep(c, s, Admissions.Delete(Account(op.pseudonym)));
    if op.Prune? {
      OneStep(c, s, Admissions.Delete(Generation(op.pseudonym, op.device, op.generation)));
    }
  }

  /**
   * An upload that is answered 201 is one step of the state machine, and the entry it adds is the
   * log's; one answered otherwise is none.
   */
  lemma CreatedIsUploadStep(c: Config, s: State, i: nat, u: Upload, e: Ending)
    requires Sane(c.H, u) && Unread(u.body) && Handled(c.H, u, e) && SameWorld(c, u.post, u.world)
    requires Waits(c, s, i, u, e.before)
    ensures if e.answer.Status() == 201
            then && Addressable(u.post) && Admissions.Enabled(c, s, StoreStep(i, u))
                 && var s' := Admissions.Apply(c, s, StoreStep(i, u));
                    && s'.log == e.after && u.Key() in e.after
                    && s'.added == s.added + [Admissions.Addition(i, u.Key(), e.after[u.Key()])]
            else e.after == s.log || e.after == e.before
  {
    AcknowledgedIsSigned(c.H, u, e);
    if e.answer.Status() == 201 {
      assert Acknowledged(c.H, u, e);
      assert Admissions.KeyFor(c, s.admitted[i]) == u.Key();
    }
  }

  /**
   * One request on its way through the service, and what else happens meanwhile: `between` its Verify
   * and its Consume, `earlier` than the store's first check, and `later`, until its second check. The
   * states are those in which its Consume, its first and its second check run.
   */
  datatype Passage = Passage(
    start: State, id: nat, between: seq<Admissions.Step>, verified: State,
    earlier: seq<Admissions.Step>, checked: State, later: seq<Admissions.Step>, stored: State)
  {
    /** All that happens, up to the second check. */
    function Steps(r: Post): seq<Admissions.Step> {
      [Admissions.Deliver(id, RequestOf(r))] + between + [Admissions.Sweep, Admissions.Consume(id)] + earlier + later
    }
  }

  ghost predicate Passes(c: Config, p: Passage, r: Post, world: World) {
    && Arrives(c, p.start, p.id, r, world)
    && Admissions.Run(c, p.start, [Admissions.Deliver(p.id, RequestOf(r))] + p.between) == Some(p.verified)
    && Pending(c, p.verified, p.id, r, world)
    && Admissions.Run(c, Admissions.SweepAndConsume(c, p.verified, p.id), p.earlier) == Some(p.checked)
    && Admissions.Run(c, p.checked, p.later) == Some(p.stored)
    && |p.verified.admitted| !in p.stored.handled
    && p.stored.log == MemoryStore.SpecOps(p.checked.log, world.others)
  }

  lemma PassageIsRun(c: Config, p: Passage, r: Post, world: World)
    requires Passes(c, p, r, world)
    ensures Admissions.Run(c, p.start, p.Steps(r)) == Some(p.stored)
  {
    var verify := [Admissions.Deliver(p.id, RequestOf(r))] + p.between;
    var consume := [Admissions.Sweep, Admissions.Consume(p.id)];
    ConsumeIsRun(c, p.verified, p.id, r, world);
    RunAppend(c, p.start, verify, consume);
    RunAppend(c, p.start, verify + consume, p.earlier);
    RunAppend(c, p.start, verify + consume + p.earlier, p.later);
  }

  lemma {:induction false} AdmissionsStay(c: Config, s: State, steps: seq<Admissions.Step>)
    requires Admissions.Run(c, s, steps).Some?
    ensures s.admitted <= Admissions.Run(c, s, steps).value.admitted
    decreases |steps|
  {
    if steps != [] {
      AdmissionsStay(c, Admissions.Apply(c, s, steps[0]), steps[1..]);
    }
  }

  lemma AdmittedUploadWaits(c: Config, p: Passage, r: Post, wire: Wire, world: World)
    requires Passes(c, p, r, world) && ReplyTo(p.verified.records, r, world).1.Admitted?
    ensures Waits(c, p.stored, |p.verified.admitted|, UploadOf(r, ReplyTo(p.verified.records, r, world).1, wire, world),
                  p.checked.log)
  {
    ConsumeIsRun(c, p.verified, p.id, r, world);
    AdmissionsStay(c, Admissions.SweepAndConsume(c, p.verified, p.id), p.earlier);
    AdmissionsStay(c, p.checked, p.later);
  }

  /**
   * The whole route as a run: a request answered 201, whatever else the service does from its
   * arrival to its second check, takes the state machine from where it arrived to a state whose log
   * is the one it left and whose newest addition is its own.
   */
  lemma CreatedIsRun(c: Config, p: Passage, r: Post, wire: Wire, world: World, e: Ending)
    requires WorldOk(c.H, world) && Passes(c, p, r, world)
    requires Served(c.H, r, ReplyTo(p.verified.records, r, world).1, wire, world, e) && e.before == p.checked.log
    requires e.answer.Status() == 201
    ensures var reply := ReplyTo(p.verified.records, r, world).1;
            && reply.Admitted? && Addressable(r)
            && var u := UploadOf(r, reply, wire, world);
               var own := StoreStep(|p.verified.admitted|, u);
               var end := Admissions.Run(c, p.start, p.Steps(r) + [own]);
               && end.Some? && end.value.log == e.after && u.Key() in e.after
               && end.value.added ==
                    p.stored.added + [Admissions.Addition(|p.verified.admitted|, u.Key(), e.after[u.Key()])]
  {
    UploadIsAllOrNothing(c.H, r, ReplyTo(p.verified.records, r, world).1, wire, world, e);
    AdmittedUploadWaits(c, p, r, wire, world);
    PassageIsRun(c, p, r, world);
    var u := UploadOf(r, ReplyTo(p.verified.records, r, world).1, wire, world);
    var own := StoreStep(|p.verified.admitted|, u);
    CreatedIsUploadStep(c, p.stored, |p.verified.admitted|, u, e);
    RunAppend(c, p.start, p.Steps(r), [own]);
    Admissions.RunOne(c, p.stored, own, []);
    assert [own] + [] == [own];
  }

  // ---- From the client -------------------------------------------------------------------------------

  /** How a client writes an entry into a target. */
  datatype Escaping = Escaping(path: string -> string, query: string -> string)

  ghost predicate Fair(esc: Escaping) {
    Client.Escapes(esc.path, Client.PATH_ENDS) && Client.Escapes(esc.query, Client.QUERY_ENDS)
  }

  /** The service reads a target the way the client writes it, if it takes it at all. */
  ghost predicate Routes(c: Config, esc: Escaping) {
    forall e: Client.Slot ::
      var t := c.route(Client.AppendUri(e, esc.path, esc.query));
      t.Some? ==> t.value == Admissions.Target(e.device, e.generation, e.seqNo, e.prev)
  }

  /** An upload as a client signs it: which entry, which bytes by their digest, with which nonce and when. */
  datatype Intent = Intent(key: Client.Signer, slot: Client.Slot, digest: string, nonce: string, now: int)

  /** The proof that Client.Append sends for it. */
  function UploadProof(esc: Escaping, i: Intent): Proof {
    Client.ProofFor(i.key, Client.AppendRequest(i.slot, i.digest, esc.path, esc.query), i.nonce, i.now)
  }

  /** Where the entry belongs: in the account that the proof is genuine for. */
  function KeyIn(c: Config, p: Proof, slot: Client.Slot): BlobKey
    requires Signed(c.wallet, p).Genuine?
  {
    BlobKey(Signed(c.wallet, p).account, slot.device, slot.generation, slot.seqNo)
  }

  /** The addition is the entry the client meant, in the account of the proof. */
  ghost predicate IsEntry(c: Config, added: Admissions.Addition, p: Proof, i: Intent) {
    && Signed(c.wallet, p).Genuine? && added.key == KeyIn(c, p, i.slot)
    && added.blob.sha == i.digest == c.H(added.blob.data) && added.blob.prev == i.slot.prev
  }

  /**
   * Over every run of the service, whoever else sends what: what is ever stored on the strength of
   * a proof that a client signed for an upload is the entry it signed for, in its account and with
   * its digest; and if the proof is always consumed by its expiry, it is stored at most once.
   */
  lemma ProofStoresItsEntry(c: Config, s: State, esc: Escaping, i: Intent)
    requires Admissions.Reachable(c, s) && Fair(esc) && Routes(c, esc) && HexDigest(i.digest)
    ensures var p := UploadProof(esc, i);
            && (forall j :: j in Admissions.AddedBy(s, p) ==> IsEntry(c, s.added[j], p, i))
            && (Admissions.ConsumedByExpiry(s, p) ==> |Admissions.AddedBy(s, p)| <= 1)
  {
    var p := UploadProof(esc, i);
    var uri := Client.AppendUri(i.slot, esc.path, esc.query);
    Client.AppendUriIsTarget(i.slot, esc.path, esc.query);
    Admissions.EveryEntryWasSignedFor(c, s);
    forall j | j in Admissions.AddedBy(s, p) ensures IsEntry(c, s.added[j], p, i) {
      assert Admissions.SignedFor(c, s, s.added[j]);
      var a := s.admitted[s.added[j].admission];
      ActionInjective(a.request.method', a.request.uri, a.digest, POST, uri, i.digest);
    }
    if Admissions.ConsumedByExpiry(s, p) {
      Admissions.ProofAddsAtMostOne(c, s, p);
    }
  }

  /** The log gained the client's entry: these bytes, of the digest it signed. */
  ghost predicate StoredAs(c: Config, w: World, end: Ending, p: Proof, i: Intent, data: Bytes) {
    && Signed(c.wallet, p).Genuine? && c.H(data) == i.digest
    && end.after == MemoryStore.SpecOps(end.before, w.others)[
         KeyIn(c, p, i.slot) := Blob(data, i.digest, i.slot.prev, w.createdAt)]
  }

  /**
   * One upload seen from the client, for every transport and whoever presents the proof: a request
   * that carries a proof the client signed for an entry and is answered 201 has stored exactly the
   * bytes delivered as exactly that entry, and they have the digest the client signed.
   */
  lemma CreatedIsTheClientsEntry(
      c: Config, seen: Records, r: Post, wire: Wire, world: World, end: Ending, esc: Escaping, i: Intent)
    requires WorldOk(c.H, world) && SameWorld(c, r, world) && RequestLine(POST, r.uri)
    requires Fair(esc) && Routes(c, esc) && HexDigest(i.digest) && c.decode(r.authHeader) == Some(UploadProof(esc, i))
    requires Served(c.H, r, ReplyTo(seen, r, world).1, wire, world, end) && end.answer.Status() == 201
    ensures StoredAs(c, world, end, UploadProof(esc, i), i, Delivered(wire.script))
  {
    UploadIsAllOrNothing(c.H, r, ReplyTo(seen, r, world).1, wire, world, end);
    var judged := AuthProof.Judge(c.wallet, c.decode, RequestOf(r), world.verifiedAt);
    SoundExactly(c.wallet, c.decode, RequestOf(r), world.verifiedAt, judged.proof, judged.digest);
    Client.UploadProofBindsSlot(c.wallet, c.decode, RequestOf(r), world.verifiedAt, UploadProof(esc, i), judged.digest,
                                i.key, i.nonce, i.now, i.slot, i.digest, esc.path, esc.query);
  }
}
