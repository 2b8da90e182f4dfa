/**
 * The other side of the guarantees: an upload by an honest client that reaches the service in time and
 * in full is created, by either pair of stores, as the entry that the client signed for.
 */
module HonestUploads {
  import opened Base
  import opened BlobKeys
  import opened AtomicLog
  import opened Decimal
  import opened Encodings
  import opened NonceStores
  import opened AuthProof
  import opened Readers
  import opened EndToEnd
  import Client
  import MemoryStore
  import ChunkLoop
  import PostgresStore
  import Route = UploadRoute
  import PersistentRoute = PostgresRoute

  /** A client whose signatures the wallet trusts, with an entry that can be stored and the digest of its bytes. */
  ghost predicate HonestClient(H: Hash, w: Wallet, i: Intent, account: string, data: Bytes) {
    && Trusts(w, i.key.identityKey, i.key.sign, account)
    && i.key.identityKey != "" && i.nonce != "" && (forall bytes :: i.key.sign(bytes) != "")
    && data != [] && H(data) == i.digest && HexDigest(i.digest)
    && |i.slot.device| == 32 && (forall c :: c in i.slot.device ==> c in "0123456789abcdef")
    && 1 <= i.slot.seqNo <= 1073741824 && 1 <= i.slot.generation <= 1073741824
  }

  /** The request that client sends, as the router reads it. */
  ghost predicate HonestRequest(decode: Decoder, r: Route.Post, esc: Escaping, i: Intent) {
    && r.uri == Client.AppendUri(i.slot, esc.path, esc.query)
    && r.authHeader != "" && decode(r.authHeader) == Some(UploadProof(esc, i))
    && r.contentType == "application/octet-stream" && r.device == i.slot.device && r.prev == i.slot.prev
    && r.seqParam == Client.Param(Client.After(r.uri, '?'), "seq")
    && r.generationParam == Client.Param(Client.After(r.uri, '?'), "generation")
  }

  lemma HonestProofHolds(
      H: Hash, w: Wallet, decode: Decoder, r: Route.Post, esc: Escaping, i: Intent, account: string, data: Bytes, now: int)
    requires HonestClient(H, w, i, account, data) && HonestRequest(decode, r, esc, i) && Fair(esc)
    requires InWindow(i.now, now)
    ensures RequestLine("POST", r.uri)
    ensures AuthProof.Judge(w, decode, Incoming("POST", r.uri, r.authHeader), now) == Sound(UploadProof(esc, i), i.digest)
    ensures Signed(w, UploadProof(esc, i)) == Genuine(account) && UploadProof(esc, i).nonce == i.nonce
  {
    Client.AppendUriIsTarget(i.slot, esc.path, esc.query);
    HonestProofIsSound(w, decode, Incoming("POST", r.uri, r.authHeader), i.digest, i.key.identityKey, i.key.sign, account,
                       i.nonce, i.now, now);
  }

  lemma HonestRequestIsAddressable(
      H: Hash, w: Wallet, decode: Decoder, r: Route.Post, esc: Escaping, i: Intent, account: string, data: Bytes)
    requires HonestClient(H, w, i, account, data) && HonestRequest(decode, r, esc, i) && Fair(esc)
    ensures Route.Addressable(r)
    ensures Route.KeyOf(r, account) == BlobKey(account, i.slot.device, i.slot.generation, i.slot.seqNo)
  {
    Client.TargetReadsBack(i.slot, esc.path, esc.query);
    PrintedNumbersParse(i.slot.seqNo);
    PrintedNumbersParse(i.slot.generation);
    Route.AddressableExactly(r);
  }

  /** The body arrives in full, in whatever fragments, and is within the cap. */
  ghost predicate Arrives(script: Script, limit: nat, data: Bytes) {
    Honest(script) && Payload(script) == data && |data| <= limit
  }

  /**
   * On the in-memory stores: if the proof arrives within its window and its nonce is not on record,
   * and the entry is the next of its log at both checks, the answer is 201, and the log has gained the
   * client's entry with the client's bytes, in the client's account.
   */
  lemma HonestUploadIsCreated(
      H: Hash, seen: Records, r: Route.Post, wire: Route.Wire, world: Route.World, e: Route.Ending, esc: Escaping,
      i: Intent, account: string, data: Bytes)
    requires HonestClient(H, world.wallet, i, account, data) && HonestRequest(world.decode, r, esc, i) && Fair(esc)
    requires InWindow(i.now, world.verifiedAt) && i.nonce !in Swept(seen, world.consumedAt)
    requires Route.WorldOk(H, world) && Arrives(wire.script, wire.limit, data)
    requires Route.Served(H, r, Route.ReplyTo(seen, r, world).1, wire, world, e)
    requires var k := BlobKey(account, i.slot.device, i.slot.generation, i.slot.seqNo);
             var mid := MemoryStore.SpecOps(e.before, world.others);
             k.seqNo == HeadSeq(e.before.Keys, k) + 1 && k.seqNo == HeadSeq(mid.Keys, k) + 1
    ensures var k := BlobKey(account, i.slot.device, i.slot.generation, i.slot.seqNo);
            var mid := MemoryStore.SpecOps(e.before, world.others);
            && e.answer == Route.Created(i.slot.seqNo, i.digest, |data|) && e.answer.Status() == 201 && !e.over
            && e.after == mid[k := Blob(data, i.digest, i.slot.prev, world.createdAt)]
  {
    HonestReply(H, seen, r, world, esc, i, account, data);
    HonestRequestIsAddressable(H, world.wallet, world.decode, r, esc, i, account, data);
    HonestIsDeserved(H, r, wire, world, e, account, i.digest, data);
  }

  lemma HonestReply(
      H: Hash, seen: Records, r: Route.Post, world: Route.World, esc: Escaping, i: Intent, account: string, data: Bytes)
    requires HonestClient(H, world.wallet, i, account, data) && HonestRequest(world.decode, r, esc, i) && Fair(esc)
    requires InWindow(i.now, world.verifiedAt) && i.nonce !in Swept(seen, world.consumedAt)
    ensures Route.ReplyTo(seen, r, world).1 == Admitted(account, i.digest)
  {
    HonestProofHolds(H, world.wallet, world.decode, r, esc, i, account, data, world.verifiedAt);
  }

  /** What an admitted upload of such a body into a slot that stays free comes to. */
  lemma HonestIsDeserved(
      H: Hash, r: Route.Post, wire: Route.Wire, world: Route.World, e: Route.Ending, account: string, digest: string,
      data: Bytes)
    requires Route.WorldOk(H, world) && Route.Addressable(r) && Arrives(wire.script, wire.limit, data)
    requires H(data) == digest && data != []
    requires Route.Served(H, r, Admitted(account, digest), wire, world, e)
    requires var k, mid := Route.KeyOf(r, account), MemoryStore.SpecOps(e.before, world.others);
             k.seqNo == HeadSeq(e.before.Keys, k) + 1 && k.seqNo == HeadSeq(mid.Keys, k) + 1
    ensures var k, mid := Route.KeyOf(r, account), MemoryStore.SpecOps(e.before, world.others);
            && e.answer == Route.Created(k.seqNo, digest, |data|) && e.answer.Status() == 201 && !e.over
            && e.after == mid[k := Blob(data, digest, r.prev, world.createdAt)]
  {
    Route.DeliveredUploadIsAnswered(H, Route.UploadOf(r, Admitted(account, digest), wire, world), e);
  }

  /**
   * And on the PostgreSQL stores, if nobody interferes with the store call and nothing fails: the
   * tables have gained exactly that entry, with the chunks its bytes are cut into.
   */
  lemma HonestUploadIsCommitted(
      H: Hash, table: Records, r: Route.Post, script: Script, limit: nat, w: PersistentRoute.World,
      e: PersistentRoute.Ending, esc: Escaping, i: Intent, account: string, data: Bytes)
    requires HonestClient(H, w.wallet, i, account, data) && HonestRequest(w.decode, r, esc, i) && Fair(esc)
    requires InWindow(i.now, w.verifiedAt) && !w.luck.insertFails && !w.luck.sweepFails
    requires i.nonce !in (if w.luck.die == 0 then Swept(table, w.consumedAt) else table)
    requires Arrives(script, limit, data)
    requires PersistentRoute.Served(H, r, PersistentRoute.ReplyTo(table, r, w).1, script, limit, w, e)
    requires var u := PersistentRoute.Upload(r, account, Fresh(script, limit, i.digest), w);
             Route.Addressable(r) ==> PersistentRoute.Undisturbed(e.call.start, u)
    requires var k := BlobKey(account, i.slot.device, i.slot.generation, i.slot.seqNo);
             k.seqNo == HeadSeq(e.call.start.db.log.Keys, k) + 1
    ensures var k := BlobKey(account, i.slot.device, i.slot.generation, i.slot.seqNo);
            var chunks := ChunkLoop.CutBody(H, Fresh(script, limit, i.digest), []).1;
            && e.answer == Route.Created(i.slot.seqNo, i.digest, |data|) && e.answer.Status() == 201 && !e.over
            && Flat(chunks) == data && e.after.open == map[]
            && e.after.db ==
                 PostgresStore.WithUpload(H, e.call.start.db, e.call.x, k, i.slot.prev, w.createdAt, chunks)
  {
    HonestProofHolds(H, w.wallet, w.decode, r, esc, i, account, data, w.verifiedAt);
    HonestRequestIsAddressable(H, w.wallet, w.decode, r, esc, i, account, data);
    var reply := PersistentRoute.ReplyTo(table, r, w).1;
    assert reply == Some(Admitted(account, i.digest));
    HonestBodyIsStored(H, e.call.start.db, script, limit, i.digest, Route.KeyOf(r, account), data);
  }

  /** What the store makes of such a body in a free slot. */
  lemma HonestBodyIsStored(
      H: Hash, db: PersistentRoute.Tables, script: Script, limit: nat, digest: string, k: BlobKey, data: Bytes)
    requires Arrives(script, limit, data) && H(data) == digest && data != [] && k.seqNo == HeadSeq(db.log.Keys, k) + 1
    ensures PostgresStore.AloneOutcome(H, db, Fresh(script, limit, digest), k) == Stored(digest, |data|)
    ensures Flat(ChunkLoop.CutBody(H, Fresh(script, limit, digest), []).1) == data
    ensures |ChunkLoop.Drawn(H, script, [], digest)| <= limit
  {
    PostgresStore.UndisturbedUploadIsAnswered(H, db, script, limit, digest, k);
    ChunkLoop.HonestUploadIsJudged(H, script, limit, digest);
    ChunkLoop.CutBodyExactly(H, script, limit, digest);
    ChunkLoop.HonestIsDrawn(H, script, [], digest);
    assert [] + Payload(script) == Payload(script);
  }
}
