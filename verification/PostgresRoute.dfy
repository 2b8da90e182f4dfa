/**
 * POST /v1/log/{deviceId} on the PostgreSQL stores, as the service runs it: what a request leaves in
 * the tables, and which response the client sees, under every schedule of other transactions and
 * failures.
 */
module PostgresRoute {
  import opened Base
  import opened BlobKeys
  import opened AtomicLog
  import opened NonceStores
  import opened AuthProof
  import opened ResponseGuard
  import opened Readers
  import opened ChunkLoop
  import opened PostgresIntegrity
  import opened PostgresReads
  import PostgresModel
  import PostgresCalls
  import PostgresStore
  import Route = UploadRoute

  type State = PostgresModel.State
  type Tables = PostgresModel.Tables

  /** Everything the environment decides: clocks, failures, other transactions, and how answers are rendered. */
  datatype World = World(
    wallet: Wallet, decode: Decoder, verifiedAt: int, consumedAt: int, luck: Luck,
    schedule: PostgresCalls.Schedule, createdAt: nat, render: Route.Answer -> Bytes)

  /** An admitted upload: the request, who signed it, and its body. */
  datatype Upload = Upload(post: Route.Post, account: string, body: Stack, world: World) {
    function Key(): BlobKey
      requires Route.Addressable(post)
    {
      Route.KeyOf(post, account)
    }

    /** The bytes that were delivered. */
    function Data(): Bytes {
      DeliveredChunked(body.script, 0)
    }
  }

  /** What came of it: what the store call did, the state it left, the answer, and whether the body overran. */
  datatype Ending = Ending(call: PostgresCalls.Call, after: State, answer: Route.Answer, over: bool)

  /** The committed tables hold the entry, log row and chunk rows, as transaction x wrote it. */
  ghost predicate Holds(H: Hash, db: Tables, x: PostgresModel.Xid, u: Upload)
    requires Route.Addressable(u.post)
  {
    && u.Key() in db.log
    && db.log[u.Key()] ==
         PostgresModel.LogRow(x, H(u.Data()), PostgresModel.Nullable(u.post.prev), |u.Data()|, u.world.createdAt)
    && PostgresModel.Coalesce(db.log[u.Key()].prev) == u.post.prev
    && (db.log[u.Key()].prev == None <==> u.post.prev == "")
    && CompleteBlob(H, db, u.Key())
    && StoredBytes(db, u.Key(), ChunkCount(|u.Data()|)) == u.Data()
  }

  /** The bytes may be kept: not empty, within the cap, and signed, unless reading stopped at an io.ErrUnexpectedEOF. */
  ghost predicate MayKeep(H: Hash, u: Upload) {
    && 0 < |u.Data()| <= u.body.limit
    && (!StopsAtCut(H, u.body.script, [], u.body.limit, u.body.want) ==> H(u.Data()) == u.body.want)
  }

  ghost predicate NoRowsOf(db: Tables, x: PostgresModel.Xid) {
    && (forall c :: c in db.chunks ==> db.chunks[c].xmin != x)
    && (forall k :: k in db.log ==> db.log[k].xmin != x)
  }

  /** The request stored the entry, exactly as it was delivered. */
  ghost predicate Kept(H: Hash, u: Upload, e: Ending) {
    Route.Addressable(u.post) && !e.over && MayKeep(H, u) && Holds(H, e.after.db, e.call.x, u)
  }

  /** The request has not touched the tables: only others have changed them, and no row is its own. */
  ghost predicate LeftAlone(H: Hash, e: Ending) {
    NoRowsOf(e.after.db, e.call.x) && PostgresCalls.LeavesTablesToOthers(H, e.call.start, e.call.acts)
  }

  /** The call is Append's for this upload, and all that has happened during it is on record. */
  ghost predicate IsAppendOf(H: Hash, u: Upload, e: Ending)
    requires Route.Addressable(u.post)
  {
    var check := PostgresModel.HeadCheck(u.Key(), u.post.prev);
    && PostgresCalls.Continues(PostgresCalls.Opening(H, e.call.start, check, u.world.schedule), e.call)
    && PostgresCalls.Recorded(H, e.call, e.after)
  }

  /**
   * An admitted upload is acknowledged for what it stored, or has left the tables to the others; a
   * 500 alone may also stand for a COMMIT that landed and was not answered. The body overruns only
   * if it was read and is over the cap.
   */
  ghost predicate Settled(H: Hash, u: Upload, e: Ending) {
    if Route.Addressable(u.post) then
      && IsAppendOf(H, u, e)
      && (if e.answer.Status() == 201
          then Kept(H, u, e) && e.answer == Route.Created(u.Key().seqNo, H(u.Data()), |u.Data()|)
          else LeftAlone(H, e) || (e.answer == Route.Internal && Kept(H, u, e)))
      && (e.over ==> e.call.Opened() && |Payload(u.body.script)| > u.body.limit)
    else
      e.answer == Route.Unaddressable(u.post) && e.after == e.call.start && !e.over
  }

  ghost predicate Unread(body: Stack) {
    body == Fresh(body.script, body.limit, body.want)
  }

  /** The chunks that the body was cut into have been committed, with their log row, and the body is read out. */
  ghost predicate CommittedRows(H: Hash, u: Upload, e: Ending, rest: Stack)
    requires Route.Addressable(u.post) && Consistent(u.body)
  {
    var chunks := CutBody(H, u.body, []).1;
    && chunks != [] && u.Key() in e.after.db.log
    && e.after.db.log[u.Key()] == PostgresModel.LogRow(
         e.call.x, H(Flat(chunks)), PostgresModel.Nullable(u.post.prev), |Flat(chunks)|, u.world.createdAt)
    && e.call.x in e.after.db.history && e.after.db.history[e.call.x] == PostgresModel.Upload(u.Key(), chunks)
    && PostgresStore.ReadOut(H, u.body, rest)
  }

  lemma CommittedIsKept(H: Hash, u: Upload, e: Ending, rest: Stack)
    requires Inv(H, e.after) && Unread(u.body) && Route.Addressable(u.post)
    requires CommittedRows(H, u, e, rest) && e.over == rest.over
    ensures Kept(H, u, e) && Flat(CutBody(H, u.body, []).1) == u.Data()
  {
    ChunkedBodyIsSigned(H, u.body.script, u.body.limit, u.body.want);
    FlatNonEmpty(CutBody(H, u.body, []).1);
    LogRowIsComplete(H, e.after.db, u.Key());
  }

  lemma NotStoredIsNot201(k: BlobKey, outcome: Outcome)
    requires !outcome.Stored?
    ensures Route.AnswerFor(k, outcome).Status() != 201
  {
  }

  lemma KeptSettles(H: Hash, u: Upload, e: Ending, outcome: Outcome)
    requires Unread(u.body) && Kept(H, u, e) && Flat(CutBody(H, u.body, []).1) == u.Data() && IsAppendOf(H, u, e)
    requires e.answer == Route.AnswerFor(u.Key(), outcome) && PostgresStore.AnswersBody(H, u.body, outcome)
    requires outcome.Stored? || outcome == Unavailable
    ensures Settled(H, u, e)
  {
    assert e.answer == if outcome.Stored? then Route.Created(u.Key().seqNo, H(u.Data()), |u.Data()|) else Route.Internal;
  }

  /** A body that has overrun has been read, and is over the cap. */
  lemma OverrunsWhenRead(u: Upload, e: Ending, rest: Stack)
    requires Unread(u.body) && Later(rest, u.body) && (e.call.Opened() || rest == u.body) && e.over == rest.over
    ensures e.over ==> e.call.Opened() && |Payload(u.body.script)| > u.body.limit
  {
  }

  /** What the store answered and left settles the request. */
  lemma OutcomeSettles(H: Hash, u: Upload, e: Ending, outcome: Outcome, rest: Stack)
    requires Inv(H, e.after) && Unread(u.body) && Route.Addressable(u.post) && IsAppendOf(H, u, e)
    requires e.answer == Route.AnswerFor(u.Key(), outcome) && PostgresStore.AnswersBody(H, u.body, outcome)
    requires Later(rest, u.body) && (e.call.Opened() || rest == u.body) && e.over == rest.over
    requires || (NoRowsOf(e.after.db, e.call.x) && e.call.x !in e.after.db.history && !outcome.Stored?)
             || (CommittedRows(H, u, e, rest) && (outcome.Stored? || outcome == Unavailable))
    ensures Settled(H, u, e)
  {
    OverrunsWhenRead(u, e, rest);
    if e.call.x in e.after.db.history || outcome.Stored? {
      CommittedIsKept(H, u, e, rest);
      KeptSettles(H, u, e, outcome);
    } else {
      NotStoredIsNot201(u.Key(), outcome);
      PostgresCalls.UncommittedLeavesTables(H, e.call, e.after);
    }
  }

  // ---- Undisturbed -------------------------------------------------------------------------------------

  /** Nobody interferes with the request and nothing fails. */
  ghost predicate Undisturbed(s: State, u: Upload) {
    && Route.Addressable(u.post) && PostgresCalls.Undisturbed(u.world.schedule) && s.open == map[]
    && PostgresStore.NoChunksOf(s.db, u.Key())
  }

  /** The atomic log's answer, for the body as it was cut. */
  function AloneOutcome(H: Hash, s: State, u: Upload): Outcome
    requires Route.Addressable(u.post) && Consistent(u.body)
  {
    PostgresStore.AloneOutcome(H, s.db, u.body, u.Key())
  }

  /** The tables as they were, with the upload if it is stored. */
  function AloneTables(H: Hash, s: State, x: PostgresModel.Xid, u: Upload): Tables
    requires Route.Addressable(u.post) && Consistent(u.body)
  {
    if AloneOutcome(H, s, u).Stored?
    then PostgresStore.WithUpload(H, s.db, x, u.Key(), u.post.prev, u.world.createdAt, CutBody(H, u.body, []).1)
    else s.db
  }

  /** The answer and the tables are the atomic log's, and the body overruns exactly if it is read and over the cap. */
  ghost predicate AsIfAlone(H: Hash, u: Upload, e: Ending)
    requires Route.Addressable(u.post) && Consistent(u.body)
  {
    var s := e.call.start;
    && e.answer == Route.AnswerFor(u.Key(), AloneOutcome(H, s, u))
    && e.after.db == AloneTables(H, s, e.call.x, u) && e.after.open == map[]
    && (e.over <==> && u.Key().seqNo == HeadSeq(s.db.log.Keys, u.Key()) + 1
                    && |Drawn(H, u.body.script, [], u.body.want)| > u.body.limit)
  }

  lemma AloneOverruns(H: Hash, u: Upload, e: Ending, rest: Stack)
    requires Route.Addressable(u.post) && Unread(u.body) && e.over == rest.over
    requires AloneOutcome(H, e.call.start, u) == SeqConflict ==> rest == u.body
    requires AloneOutcome(H, e.call.start, u) != SeqConflict ==> PostgresStore.ReadUp(H, u.body, rest)
    ensures e.over <==> && u.Key().seqNo == HeadSeq(e.call.start.db.log.Keys, u.Key()) + 1
                        && |Drawn(H, u.body.script, [], u.body.want)| > u.body.limit
  {
    CutOverrunsExactly(H, u.body.script, u.body.limit, u.body.want);
  }

  // ---- The handler -------------------------------------------------------------------------------------

  /** The handler: ordered checks, one store call, one answer. */
  method HandleAppend(store: PostgresStore.Store, r: Route.Post, account: string, body: DigestVerifyingBody, w: World)
    returns (answer: Route.Answer, ghost call: PostgresCalls.Call)
    requires Inv(store.H, store.st) && Unread(body.State()) && body.H == store.H
    modifies store, body, body.rc, body.rc.rc, body.rc.guard`over
    ensures Inv(store.H, store.st) && call.start == old(store.st)
    ensures Settled(store.H, Upload(r, account, old(body.State()), w),
                    Ending(call, store.st, answer, body.rc.guard.over))
    ensures Undisturbed(old(store.st), Upload(r, account, old(body.State()), w)) ==>
              AsIfAlone(store.H, Upload(r, account, old(body.State()), w),
                        Ending(call, store.st, answer, body.rc.guard.over))
  {
    var refusal, key := Route.Address(r, account);
    if refusal.Some? {
      return refusal.value, Idle(store.H, store.st, w);
    }
    answer, call := StoreBody(store, r, account, key, r.prev, body, w);
  }

  /** The store call, and the answer that goes with its outcome. */
  method StoreBody(store: PostgresStore.Store, ghost r: Route.Post, ghost account: string, key: BlobKey, prev: string,
                   body: DigestVerifyingBody, w: World)
    returns (answer: Route.Answer, ghost call: PostgresCalls.Call)
    requires Inv(store.H, store.st) && Unread(body.State()) && body.H == store.H
    requires Route.Addressable(r) && key == Route.KeyOf(r, account) && prev == r.prev
    modifies store, body, body.rc, body.rc.rc, body.rc.guard`over
    ensures Inv(store.H, store.st) && call.start == old(store.st)
    ensures Settled(store.H, Upload(r, account, old(body.State()), w),
                    Ending(call, store.st, answer, body.rc.guard.over))
    ensures Undisturbed(old(store.st), Upload(r, account, old(body.State()), w)) ==>
              AsIfAlone(store.H, Upload(r, account, old(body.State()), w),
                        Ending(call, store.st, answer, body.rc.guard.over))
  {
    ghost var s0, u := store.st, Upload(r, account, body.State(), w);
    var outcome;
    ghost var x, before;
    outcome, x, before := store.Append(key, prev, body, w.createdAt, w.schedule);
    store.Sound(s0);
    answer, call := Route.AnswerFor(key, outcome), store.call;
    ghost var e := Ending(call, store.st, answer, body.rc.guard.over);
    OutcomeSettles(store.H, u, e, outcome, body.State());
    if Undisturbed(s0, u) {
      AloneOverruns(store.H, u, e, body.State());
    }
  }

  // ---- The whole route -------------------------------------------------------------------------------

  function UploadOf(r: Route.Post, reply: Reply, script: Script, limit: nat, w: World): Upload
    requires reply.Admitted?
  {
    Upload(r, reply.account, Fresh(script, limit, reply.digest), w)
  }

  /** What the middleware makes of the request; None if the nonce store fails. */
  function ReplyTo(table: Records, r: Route.Post, w: World): (Records, Option<Reply>) {
    AuthenticatedPersistently(table, w.wallet, w.decode, Incoming(Route.POST, r.uri, r.authHeader),
                              w.verifiedAt, w.consumedAt, w.luck)
  }

  /**
   * What becomes of a request behind the size guard. Status 201 means that exactly the bytes that
   * were delivered are committed as the entry that the request names in the account that signed for
   * them, row by row, not empty, within the cap and, unless reading stopped at an
   * io.ErrUnexpectedEOF, of the signed digest. Otherwise the request has not touched the tables, but
   * for a 500 whose COMMIT landed all the same. Undisturbed, the answer and the tables are the atomic
   * log's, and the body overruns exactly if the slot is free and it is over the cap.
   */
  ghost predicate Served(
    H: Hash, r: Route.Post, reply: Option<Reply>, script: Script, limit: nat, w: World, e: Ending)
  {
    match reply
    case None => e.answer == Route.Internal && e.after == e.call.start && !e.over
    case Some(Refused(reason)) => e.answer == Route.Unauthorized(reason) && e.after == e.call.start && !e.over
    case Some(Admitted(account, digest)) =>
      var u := UploadOf(r, Admitted(account, digest), script, limit, w);
      Settled(H, u, e) && (Undisturbed(e.call.start, u) ==> AsIfAlone(H, u, e))
  }

  /** The middleware has left the nonces so, and the request has been served with its reply. */
  ghost predicate AuthenticatedAndServed(
    H: Hash, r: Route.Post, before: Records, after: Records, script: Script, limit: nat, w: World, e: Ending)
  {
    after == ReplyTo(before, r, w).0 && Served(H, r, ReplyTo(before, r, w).1, script, limit, w, e)
  }

  /** A call that never happens. */
  ghost function Idle(H: Hash, s: State, w: World): PostgresCalls.Call {
    PostgresCalls.Opening(H, s, PostgresModel.GetMissing(BlobKey("", "", 0, 0)), w.schedule)
  }

  /** The wrapped body, and the handler. */
  method ServeAdmitted(store: PostgresStore.Store, counting: CountingBody, r: Route.Post, account: string, digest: string,
                       w: World)
    returns (answer: Route.Answer, ghost call: PostgresCalls.Call)
    requires Inv(store.H, store.st) && counting.read == 0 && !counting.guard.over
    modifies store, counting, counting.rc, counting.guard`over
    ensures Inv(store.H, store.st) && call.start == old(store.st)
    ensures Served(store.H, r, Some(Admitted(account, digest)), old(counting.rc.script), counting.limit, w,
                   Ending(call, store.st, answer, counting.guard.over))
  {
    var body := new DigestVerifyingBody(counting, digest, store.H);
    assert body.State() == Fresh(counting.rc.script, counting.limit, digest);
    answer, call := HandleAppend(store, r, account, body, w);
  }

  /** Behind the size guard: authentication, then the handler. */
  method ServeGuarded(store: PostgresStore.Store, nonces: PostgresNonces, counting: CountingBody, r: Route.Post, w: World)
    returns (answer: Route.Answer, ghost call: PostgresCalls.Call)
    requires Inv(store.H, store.st) && counting.read == 0 && !counting.guard.over && w.luck.die < SWEEP_ODDS
    modifies store, nonces, counting, counting.rc, counting.guard`over
    ensures Inv(store.H, store.st) && call.start == old(store.st)
    ensures nonces.table == ReplyTo(old(nonces.table), r, w).0
    ensures Served(store.H, r, ReplyTo(old(nonces.table), r, w).1, old(counting.rc.script), counting.limit, w,
                   Ending(call, store.st, answer, counting.guard.over))
  {
    call := Idle(store.H, store.st, w);
    var reply := AuthenticatePersistently(nonces, w.wallet, w.decode, Incoming(Route.POST, r.uri, r.authHeader),
                                          w.verifiedAt, w.consumedAt, w.luck);
    match reply {
      case None => answer := Route.Internal;
      case Some(Refused(reason)) => answer := Route.Unauthorized(reason);
      case Some(Admitted(account, digest)) => answer, call := ServeAdmitted(store, counting, r, account, digest, w);
    }
  }

  /** maxBody around it all, as with the in-memory stores. */
  method ServeUpload(store: PostgresStore.Store, nonces: PostgresNonces, transport: Transport, out: ResponseWriter,
                     limit: nat, envelope: Bytes, r: Route.Post, w: World)
    returns (answer: Route.Answer, over: bool, ghost call: PostgresCalls.Call)
    requires Inv(store.H, store.st) && w.luck.die < SWEEP_ODDS && out.statuses == [] && out.body == []
    modifies store, nonces, transport, out
    ensures Inv(store.H, store.st) && call.start == old(store.st)
    ensures r.contentLength.Some? && r.contentLength.value > limit ==>
              && over && answer == Route.Internal && unchanged(store) && unchanged(nonces) && unchanged(transport)
              && Route.OneResponse(old(out.headers), out, true, false, 413, envelope, envelope)
    ensures !(r.contentLength.Some? && r.contentLength.value > limit) ==>
              && Route.OneResponse(old(out.headers), out, over, over, answer.Status(), w.render(answer), envelope)
              && AuthenticatedAndServed(store.H, r, old(nonces.table), nonces.table, old(transport.script), limit, w,
                                        Ending(call, store.st, answer, over))
  {
    call := Idle(store.H, store.st, w);
    if r.contentLength.Some? && r.contentLength.value > limit {
      Route.RefuseDeclared(out, envelope);
      answer, over := Route.Internal, true;
    } else {
      answer, over, call := ServeCounted(store, nonces, transport, out, limit, envelope, r, w);
    }
  }

  /** A request whose length is not declared too large, behind the guard. */
  method ServeCounted(store: PostgresStore.Store, nonces: PostgresNonces, transport: Transport, out: ResponseWriter,
                      limit: nat, envelope: Bytes, r: Route.Post, w: World)
    returns (answer: Route.Answer, over: bool, ghost call: PostgresCalls.Call)
    requires Inv(store.H, store.st) && w.luck.die < SWEEP_ODDS && out.statuses == [] && out.body == []
    modifies store, nonces, transport, out
    ensures Inv(store.H, store.st) && call.start == old(store.st)
    ensures Route.OneResponse(old(out.headers), out, over, over, answer.Status(), w.render(answer), envelope)
    ensures AuthenticatedAndServed(store.H, r, old(nonces.table), nonces.table, old(transport.script), limit, w,
                                   Ending(call, store.st, answer, over))
  {
    var guard := new SizeGuard(out, envelope);
    var counting := new CountingBody(transport, limit, guard);
    answer, call := ServeGuarded(store, nonces, counting, r, w);
    over := guard.over;
    Route.Conclude(guard, answer, w.render);
  }
}
