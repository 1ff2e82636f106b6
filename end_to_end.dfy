/**
 * The two nodes together: what the validator sends is what the hub checks. The hub
 * rebuilds the signed texts with the same functions the validator signs, so a
 * validator whose key pair the scheme honours is admitted, adopts the id it is
 * acknowledged with, and has each reply to a request dispatched to it recorded.
 */
module EndToEnd {
  import opened Wrappers
  import opened Protocol
  import opened FreshIds
  import opened Signatures
  import Store
  import opened Registry
  import opened Dispatch
  import opened Hub
  import opened Validator

  /**
   * An honest validator's signup is accepted, the hub acknowledges it with the id
   * of the stored validator holding its key, and resolving that ack makes the
   * validator adopt exactly that id.
   */
  lemma SignupRoundTrip(crypto: Scheme, kp: KeyPair, db: Store.Db, callbackId: Id, awaited: set<Id>, current: Option<Id>)
    requires Honest(crypto, kp) && Store.Valid(db)
    requires callbackId in awaited
    ensures SignupAccepted(crypto, SignupFor(crypto, kp, callbackId))
    ensures var (db', id) := Admit(db, ReportedIp, kp.publicKey);
      Store.HasKey(db', id, kp.publicKey) &&
      ResolveAck(awaited, current, SignupAck(id, callbackId)) == (awaited - {callbackId}, Some(id))
  {
    var m := SignupFor(crypto, kp, callbackId);
    assert VerifyMessage(crypto, SignupText(callbackId, kp.publicKey), kp.publicKey, m.signedMessage);
  }

  /**
   * A signup signature is bound to its callback id: when the scheme binds the key
   * pair's signatures to their texts, a signature made for callback id `c` is
   * accepted only in a signup that carries `c`.
   */
  lemma ReplayedSignupIsRefused(crypto: Scheme, kp: KeyPair, c: Id, c': Id, ip: string)
    requires Binding(crypto, kp)
    requires SignupAccepted(crypto, SignupRequest(c', ip, kp.publicKey, SignMessage(crypto, SignupText(c, kp.publicKey), kp)))
    ensures c' == c
  {
    SignupTextInjective(c', kp.publicKey, c, kp.publicKey);
  }

  /**
   * A reply signature is bound to its callback id: a signature the dispatched-to
   * key made over the reply text of `c` verifies only in a reply to `c`.
   */
  lemma ReplayedReplyIsRefused(crypto: Scheme, kp: KeyPair, callbacks: map<Id, Pending>, reply: ValidateReply, c: Id)
    requires Binding(crypto, kp)
    requires reply.callbackId in callbacks && callbacks[reply.callbackId].publicKey == kp.publicKey
    requires reply.signedMessage == SignMessage(crypto, ReplyText(c), kp)
    requires ReplyVerified(crypto, callbacks, reply)
    ensures reply.callbackId == c
  {
    ReplyTextInjective(reply.callbackId, c);
  }

  /**
   * A reply an honest validator sends to a request the hub dispatched to its key,
   * once it holds a stored validator id, is verified and records exactly one tick,
   * for the dispatched website with the probe's status and latency, and pays that
   * validator one validation.
   */
  lemma HonestReplyIsRecorded(crypto: Scheme, kp: KeyPair, callbacks: map<Id, Pending>, db: Store.Db,
                              request: ValidateRequest, v: Id, outcome: ProbeOutcome, startTime: int, now: int)
    requires Honest(crypto, kp)
    requires request.callbackId in callbacks && callbacks[request.callbackId].publicKey == kp.publicKey
    requires v in db.validators
    ensures var reply := BuildReply(crypto, kp, request, Some(v), outcome, startTime);
      ReplyVerified(crypto, callbacks, reply) &&
      Store.Credited(db, ReplyDb(crypto, callbacks, db, reply, now),
        Store.Tick(callbacks[request.callbackId].websiteId, v, Classify(outcome, startTime).0,
                   Classify(outcome, startTime).1, now),
        CostPerValidation)
  {
    var reply := BuildReply(crypto, kp, request, Some(v), outcome, startTime);
    assert VerifyMessage(crypto, ReplyText(request.callbackId), kp.publicKey, reply.signedMessage);
  }

  /** A reply sent before any ack carries no validator id, so the hub records nothing for it. */
  lemma ReplyBeforeAckRecordsNothing(crypto: Scheme, kp: KeyPair, callbacks: map<Id, Pending>, db: Store.Db,
                                     request: ValidateRequest, outcome: ProbeOutcome, startTime: int, now: int)
    ensures ReplyDb(crypto, callbacks, db, BuildReply(crypto, kp, request, None, outcome, startTime), now) == db
  {
  }

  /**
   * Across a whole pass: the request sent for website `i` to live entry `j`, when
   * answered by an honest holder of that entry's key with a stored validator id,
   * records a tick for website `i` and pays that validator.
   */
  lemma DispatchedReplyIsRecorded(crypto: Scheme, kp: KeyPair, table: map<Id, Pending>, sent: seq<Delivery>,
                                  ws: seq<Website>, vs: seq<Entry>, n: nat, i: nat, j: nat, db: Store.Db,
                                  v: Id, outcome: ProbeOutcome, startTime: int, now: int)
    requires i < |ws| && j < |vs|
    requires IssuedBefore(table.Keys, n)
    requires Honest(crypto, kp) && vs[j].publicKey == kp.publicKey
    requires v in db.validators
    ensures |sent| + i * |vs| + j < |PassSent(sent, ws, vs, n)|
    ensures var d := PassSent(sent, ws, vs, n)[|sent| + i * |vs| + j];
      d.to == vs[j].socket && d.message.RequestMessage? &&
      var reply := BuildReply(crypto, kp, d.message.request, Some(v), outcome, startTime);
      Store.Credited(db, ReplyDb(crypto, PassTable(table, ws, vs, n), db, reply, now),
        Store.Tick(ws[i].id, v, Classify(outcome, startTime).0, Classify(outcome, startTime).1, now),
        CostPerValidation)
  {
    PassSentAt(sent, ws, vs, n, i, j);
    PassTableAt(table, ws, vs, n, i, j);
    var d := PassSent(sent, ws, vs, n)[|sent| + i * |vs| + j];
    HonestReplyIsRecorded(crypto, kp, PassTable(table, ws, vs, n), db, d.message.request, v, outcome, startTime, now);
  }

  /**
   * A worked case: website 1 is dispatched to validator 7 under callback id 3; the
   * site answers 200 after 120 ms; the hub stores the tick (Up, 120) for website 1
   * and raises validator 7's pending payout from 0 to 100.
   */
  lemma UpIn120Milliseconds(crypto: Scheme, kp: KeyPair, now: int)
    requires Honest(crypto, kp)
    ensures
      var db := Store.Db(map[kp.publicKey := 7], map[7 := Store.ValidatorRecord(kp.publicKey, "10.0.0.1", Store.UnknownLocation, 0)], [], 8);
      var callbacks := map[3 := Pending(1, "https://example.com", 7, kp.publicKey)];
      var reply := BuildReply(crypto, kp, ValidateRequest("https://example.com", 3, None), Some(7), Responded(200, 1120), 1000);
      var after := ReplyDb(crypto, callbacks, db, reply, now);
      reply.status == Up && reply.latency == 120 &&
      after.ticks == [Store.Tick(1, 7, Up, 120, now)] &&
      after.validators[7].pendingPayouts == 100
  {
    var db := Store.Db(map[kp.publicKey := 7], map[7 := Store.ValidatorRecord(kp.publicKey, "10.0.0.1", Store.UnknownLocation, 0)], [], 8);
    var callbacks := map[3 := Pending(1, "https://example.com", 7, kp.publicKey)];
    HonestReplyIsRecorded(crypto, kp, callbacks, db, ValidateRequest("https://example.com", 3, None), 7, Responded(200, 1120), 1000, now);
  }
}
