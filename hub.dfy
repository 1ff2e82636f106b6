/**
 * The hub: the live-validator registry, the callback table that correlates validate
 * replies with the dispatch that caused them, the database, and the messages sent.
 * Each handler of the source is one atomic step on this state.
 */
module Hub {
  import opened Wrappers
  import opened Protocol
  import opened FreshIds
  import opened Signatures
  import Store
  import opened Registry
  import opened Dispatch

  /** Payout units credited per verified validate reply. */
  const CostPerValidation: int := 100

  /**
   * A signup is admitted when its signature over the signup text rebuilt from its
   * own callback id and key verifies against that key: both decode, and the
   * detached verifier accepts the text's UTF-8 bytes.
   */
  function SignupAccepted(crypto: Scheme, m: SignupRequest): (ok: bool)
    ensures ok ==> crypto.decodeSignature(m.signedMessage).Some? && crypto.decodePublicKey(m.publicKey).Some?
    ensures ok ==> crypto.detachedVerify(crypto.utf8(SignupText(m.callbackId, m.publicKey)),
                                         crypto.decodeSignature(m.signedMessage).value,
                                         crypto.decodePublicKey(m.publicKey).value) == Some(true)
  {
    VerifyMessage(crypto, SignupText(m.callbackId, m.publicKey), m.publicKey, m.signedMessage)
  }

  /**
   * Find or create: the validator id a verified signup yields and the database
   * after it. A known key reuses its id and leaves the database alone; an unknown
   * key gets exactly one new record, at location "unknown" with no payout.
   */
  function Admit(db: Store.Db, ip: string, publicKey: PublicKey): (r: (Store.Db, Id))
    requires Store.Valid(db)
    ensures Store.Valid(r.0) && Store.HasKey(r.0, r.1, publicKey)
    ensures Store.FindByKey(db, publicKey).Some? ==> r.0 == db
    ensures Store.FindByKey(db, publicKey).None? ==>
      r.1 !in db.validators && r.0.ticks == db.ticks &&
      r.0.validators == db.validators[r.1 := Store.ValidatorRecord(publicKey, ip, Store.UnknownLocation, 0)]
  {
    match Store.FindByKey(db, publicKey)
    case Some(id) => (db, id)
    case None => Store.CreateValidator(db, ip, publicKey)
  }

  /** Signing up again with a known key yields the same id and no new record. */
  lemma AdmitIsIdempotent(db: Store.Db, ip: string, ip': string, publicKey: PublicKey)
    requires Store.Valid(db)
    ensures Admit(Admit(db, ip, publicKey).0, ip', publicKey) == Admit(db, ip, publicKey)
  {
    var (db1, id) := Admit(db, ip, publicKey);
    assert Store.FindByKey(db1, publicKey) == Some(id);
  }

  /**
   * A validate reply is accepted when its id is pending and its signature over the
   * reply text of that id verifies against the key the request was dispatched to;
   * the key the reply itself might name plays no part.
   */
  function ReplyVerified(crypto: Scheme, callbacks: map<Id, Pending>, reply: ValidateReply): (ok: bool)
    ensures reply.callbackId !in callbacks ==> !ok
    ensures ok ==>
      var key := callbacks[reply.callbackId].publicKey;
      crypto.decodeSignature(reply.signedMessage).Some? && crypto.decodePublicKey(key).Some? &&
      crypto.detachedVerify(crypto.utf8(ReplyText(reply.callbackId)), crypto.decodeSignature(reply.signedMessage).value,
                            crypto.decodePublicKey(key).value) == Some(true)
  {
    reply.callbackId in callbacks &&
    VerifyMessage(crypto, ReplyText(reply.callbackId), callbacks[reply.callbackId].publicKey, reply.signedMessage)
  }

  /** The tick a verified reply from validator `v` records. */
  function TickOf(callbacks: map<Id, Pending>, reply: ValidateReply, v: Id, now: int): Store.Tick
    requires reply.callbackId in callbacks
  {
    Store.Tick(callbacks[reply.callbackId].websiteId, v, reply.status, reply.latency, now)
  }

  /**
   * The database after a validate reply arrives at time `now`. Nothing changes
   * unless the reply is verified; then the tick and the payout are recorded
   * together or, when the transaction fails, not at all. The tick's website comes
   * from the dispatch record; its validator, status and latency from the reply.
   */
  function ReplyDb(crypto: Scheme, callbacks: map<Id, Pending>, db: Store.Db, reply: ValidateReply, now: int): (r: Store.Db)
    ensures !ReplyVerified(crypto, callbacks, reply) ==> r == db
    ensures r == db || (
      ReplyVerified(crypto, callbacks, reply) && reply.validatorId.Some? &&
      Store.Credited(db, r, TickOf(callbacks, reply, reply.validatorId.value, now), CostPerValidation))
    ensures ReplyVerified(crypto, callbacks, reply) && reply.validatorId.Some? ==>
      (reply.validatorId.value in db.validators <==> r != db)
  {
    if !ReplyVerified(crypto, callbacks, reply) then db
    else
      var p := callbacks[reply.callbackId];
      match Store.RecordTickAndPay(db, p.websiteId, reply.validatorId, reply.status, reply.latency, now, CostPerValidation)
      case None => db
      case Some(d) => d
  }

  /** A reply is acted on at most once: once its id is consumed, the same reply changes nothing. */
  lemma ReplyIsOneShot(crypto: Scheme, callbacks: map<Id, Pending>, db: Store.Db, reply: ValidateReply, now: int, later: int)
    ensures ReplyDb(crypto, callbacks - {reply.callbackId}, ReplyDb(crypto, callbacks, db, reply, now), reply, later)
            == ReplyDb(crypto, callbacks, db, reply, now)
  {
  }

  /** Every live entry names a stored validator with the entry's public key. */
  ghost predicate RegistryOk(db: Store.Db, registry: seq<Entry>) {
    forall e :: e in registry ==> Store.HasKey(db, e.validatorId, e.publicKey)
  }

  /**
   * Every pending id was drawn before draw `next`, and every pending record names a
   * stored validator with the record's public key.
   */
  ghost predicate CallbacksOk(db: Store.Db, callbacks: map<Id, Pending>, next: nat) {
    IssuedBefore(callbacks.Keys, next) &&
    forall id :: id in callbacks ==> Store.HasKey(db, callbacks[id].validatorId, callbacks[id].publicKey)
  }

  class Hub {
    const crypto: Scheme
    /** `availableValidators`. */
    var registry: seq<Entry>
    /** `CALLBACKS`, each closure replaced by its pending record. */
    var callbacks: map<Id, Pending>
    var db: Store.Db
    /** Every message sent, in order. */
    var outbox: seq<Delivery>
    /** How many callback ids have been drawn. */
    var nextCallback: nat

    /**
     * The database is consistent, every live entry and every pending record names a
     * stored validator with that public key, and every pending id was drawn.
     */
    ghost predicate Valid()
      reads this
    {
      Store.Valid(db) && RegistryOk(db, registry) && CallbacksOk(db, callbacks, nextCallback)
    }

    constructor (crypto: Scheme, db: Store.Db)
      requires Store.Valid(db)
      ensures Valid()
      ensures this.crypto == crypto && this.db == db
      ensures registry == [] && callbacks == map[] && outbox == [] && nextCallback == 0
    {
      this.crypto := crypto;
      this.db := db;
      registry := [];
      callbacks := map[];
      outbox := [];
      nextCallback := 0;
    }

    /** The `message` handler: a signup or a validate reply. */
    method OnMessage(ws: Socket, msg: IncomingMessage, now: int)
      requires Valid()
      modifies this
      ensures Valid()
      ensures msg.SignupMessage? && !SignupAccepted(crypto, msg.signup) ==>
        registry == old(registry) && db == old(db) && outbox == old(outbox) && callbacks == old(callbacks)
      ensures msg.SignupMessage? && SignupAccepted(crypto, msg.signup) ==>
        var (db', id) := Admit(old(db), msg.signup.ip, msg.signup.publicKey);
        db == db' && callbacks == old(callbacks) &&
        outbox == old(outbox) + [Delivery(ws, AckMessage(SignupAck(id, msg.signup.callbackId)))] &&
        registry == old(registry) + [Entry(id, ws, msg.signup.publicKey)]
      ensures msg.ReplyMessage? ==>
        callbacks == old(callbacks) - {msg.reply.callbackId} &&
        db == ReplyDb(crypto, old(callbacks), old(db), msg.reply, now) &&
        registry == old(registry) && outbox == old(outbox)
      ensures nextCallback == old(nextCallback)
    {
      match msg
      case SignupMessage(m) => OnSignup(ws, m);
      case ReplyMessage(r) => OnValidateReply(r, now);
    }

    /** A signup message: registered and acknowledged only if its signature verifies. */
    method OnSignup(ws: Socket, m: SignupRequest)
      requires Valid()
      modifies this
      ensures Valid()
      ensures callbacks == old(callbacks) && nextCallback == old(nextCallback)
      ensures !SignupAccepted(crypto, m) ==>
        registry == old(registry) && db == old(db) && outbox == old(outbox)
      ensures SignupAccepted(crypto, m) ==>
        var (db', id) := Admit(old(db), m.ip, m.publicKey);
        db == db' &&
        outbox == old(outbox) + [Delivery(ws, AckMessage(SignupAck(id, m.callbackId)))] &&
        registry == old(registry) + [Entry(id, ws, m.publicKey)]
    {
      var verified := VerifyMessage(crypto, SignupText(m.callbackId, m.publicKey), m.publicKey, m.signedMessage);
      if verified {
        SignupHandler(ws, m);
      }
    }

    /** `signupHandler`: find or create the validator, acknowledge, register the connection. */
    method SignupHandler(ws: Socket, m: SignupRequest)
      requires Valid()
      modifies this
      ensures Valid()
      ensures callbacks == old(callbacks) && nextCallback == old(nextCallback)
      ensures
        var (db', id) := Admit(old(db), m.ip, m.publicKey);
        db == db' &&
        outbox == old(outbox) + [Delivery(ws, AckMessage(SignupAck(id, m.callbackId)))] &&
        registry == old(registry) + [Entry(id, ws, m.publicKey)]
    {
      var found := Store.FindByKey(db, m.publicKey);
      if found.Some? {
        outbox := outbox + [Delivery(ws, AckMessage(SignupAck(found.value, m.callbackId)))];
        registry := registry + [Entry(found.value, ws, m.publicKey)];
        return;
      }
      var created := Store.CreateValidator(db, m.ip, m.publicKey);
      db := created.0;
      outbox := outbox + [Delivery(ws, AckMessage(SignupAck(created.1, m.callbackId)))];
      registry := registry + [Entry(created.1, ws, m.publicKey)];
    }

    /** `availableValidators.findIndex(v => v.socket === ws)`. */
    method FindIndex(ws: Socket) returns (index: int)
      ensures index == match FindSocket(registry, ws) case None => -1 case Some(i) => i
    {
      index := -1;
      var i := 0;
      while i < |registry|
        invariant 0 <= i <= |registry|
        invariant forall k :: 0 <= k < i ==> registry[k].socket != ws
      {
        if registry[i].socket == ws {
          index := i;
          return;
        }
        i := i + 1;
      }
    }

    /** The `close` handler: splice out the first entry of the closed connection. */
    method OnClose(ws: Socket)
      requires Valid()
      modifies this
      ensures Valid()
      ensures registry == Unregister(old(registry), ws)
      ensures callbacks == old(callbacks) && db == old(db) && outbox == old(outbox)
      ensures nextCallback == old(nextCallback)
    {
      var index := FindIndex(ws);
      if index != -1 {
        registry := registry[..index] + registry[index + 1..];
      }
    }

    /**
     * One run of the periodic task over the website table `sites`: a validate
     * request and a pending record per (active website, live entry) pair, websites
     * outer and entries inner, each under the next id drawn.
     */
    method DispatchPass(sites: seq<Website>)
      requires Valid()
      modifies this`outbox, this`callbacks, this`nextCallback
      ensures Valid()
      ensures outbox == PassSent(old(outbox), ActiveWebsites(sites), registry, old(nextCallback))
      ensures callbacks == PassTable(old(callbacks), ActiveWebsites(sites), registry, old(nextCallback))
      ensures nextCallback == old(nextCallback) + |ActiveWebsites(sites)| * |registry|
    {
      var websites := ActiveWebsites(sites);
      ghost var n0, c0, o0 := nextCallback, callbacks, outbox;
      for i := 0 to |websites|
        invariant outbox == PlanSent(o0, websites, registry, n0, i)
        invariant callbacks == PlanTable(c0, websites, registry, n0, i)
        invariant nextCallback == RowStart(n0, |registry|, i)
        invariant CallbacksOk(db, callbacks, nextCallback)
      {
        SendToAll(websites[i]);
      }
      RowStartIs(n0, |registry|, |websites|);
    }

    /** The inner `forEach` of a pass: one request per live entry for `website`, in registry order. */
    method SendToAll(website: Website)
      requires Store.Valid(db) && RegistryOk(db, registry) && CallbacksOk(db, callbacks, nextCallback)
      modifies this`outbox, this`callbacks, this`nextCallback
      ensures CallbacksOk(db, callbacks, nextCallback)
      ensures outbox == RowSent(old(outbox), website, registry, old(nextCallback), |registry|)
      ensures callbacks == RowTable(old(callbacks), website, registry, old(nextCallback), |registry|)
      ensures nextCallback == old(nextCallback) + |registry|
    {
      ghost var m, c0, o0 := nextCallback, callbacks, outbox;
      for j := 0 to |registry|
        invariant outbox == RowSent(o0, website, registry, m, j)
        invariant callbacks == RowTable(c0, website, registry, m, j)
        invariant nextCallback == m + j
        invariant CallbacksOk(db, callbacks, nextCallback)
      {
        var validator := registry[j];
        var callbackId := nextCallback;
        outbox := outbox + [Delivery(validator.socket, RequestMessage(ValidateRequest(website.url, callbackId, None)))];
        callbacks := callbacks[callbackId := Pending(website.id, website.url, validator.validatorId, validator.publicKey)];
        nextCallback := nextCallback + 1;
      }
    }

    /**
     * The `validate` branch: run the pending continuation if the id is known, then
     * delete the id whether or not it was.
     */
    method OnValidateReply(reply: ValidateReply, now: int)
      requires Valid()
      modifies this
      ensures Valid()
      ensures callbacks == old(callbacks) - {reply.callbackId}
      ensures db == ReplyDb(crypto, old(callbacks), old(db), reply, now)
      ensures registry == old(registry) && outbox == old(outbox) && nextCallback == old(nextCallback)
    {
      if reply.callbackId in callbacks {
        var pending := callbacks[reply.callbackId];
        RunContinuation(reply.callbackId, pending, reply, now);
      }
      callbacks := callbacks - {reply.callbackId};
    }

    /**
     * The continuation registered by a dispatch: verify the reply against the
     * dispatched-to key, then record the tick and the payout in one transaction.
     */
    method RunContinuation(callbackId: Id, pending: Pending, reply: ValidateReply, now: int)
      requires Valid()
      requires callbackId == reply.callbackId && callbackId in callbacks && callbacks[callbackId] == pending
      modifies this`db
      ensures Valid()
      ensures db == ReplyDb(crypto, callbacks, old(db), reply, now)
    {
      var verified := VerifyMessage(crypto, ReplyText(callbackId), pending.publicKey, reply.signedMessage);
      if !verified {
        return;
      }
      var outcome := Store.RecordTickAndPay(db, pending.websiteId, reply.validatorId, reply.status,
                                            reply.latency, now, CostPerValidation);
      if outcome.Some? {
        Store.CreditedKeepsKeys(db, outcome.value,
          Store.Tick(pending.websiteId, reply.validatorId.value, reply.status, reply.latency, now), CostPerValidation);
        db := outcome.value;
      }
    }
  }
}
