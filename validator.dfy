/**
 * The validator node: it signs up when its connection opens, adopts the validator id
 * the hub acknowledges, answers every validate request with one signed reply, and
 * reconnects after a fixed delay whenever the connection closes. The probe result
 * and the clock are parameters of the handler that uses them.
 */
module Validator {
  import opened Wrappers
  import opened Protocol
  import opened FreshIds
  import opened Signatures

  /** The latency reported when the probe throws, whatever time has passed. */
  const ErrorLatency: int := 1000
  /** The HTTP status that counts as up. */
  const HttpOk: int := 200
  /** The address a validator reports at signup. */
  const ReportedIp: string := "127.0.0.1"
  /** Milliseconds between a close and the next connection attempt. */
  const ReconnectDelay: nat := 5000

  /** What `fetch(url)` did: answered with a status at `endTime`, or threw. */
  datatype ProbeOutcome = Responded(httpStatus: int, endTime: int) | Threw

  /** The connection to the hub. */
  datatype Link = Connecting | Open | Reconnecting(delay: nat)

  /**
   * The status and latency reported for a probe started at `startTime`: up exactly
   * when the response status is 200, latency the elapsed time; down with the fixed
   * latency when the probe threw.
   */
  function Classify(outcome: ProbeOutcome, startTime: int): (r: (Status, int))
    ensures outcome.Responded? ==> (r.0 == Up <==> outcome.httpStatus == HttpOk)
    ensures outcome.Responded? ==> r.1 == outcome.endTime - startTime
    ensures outcome.Threw? ==> r == (Down, ErrorLatency)
  {
    match outcome
    case Responded(status, endTime) => (if status == HttpOk then Up else Down, endTime - startTime)
    case Threw => (Down, ErrorLatency)
  }

  /** A probe that throws reports the same result whenever it started. */
  lemma ThrownProbeIgnoresTime(start1: int, start2: int)
    ensures Classify(Threw, start1) == Classify(Threw, start2)
  {
  }

  /** A response reports as latency exactly the time it took. */
  lemma ResponseLatencyIsElapsed(status: int, startTime: int, elapsed: int)
    ensures Classify(Responded(status, startTime + elapsed), startTime).1 == elapsed
  {
  }

  /**
   * The signup a validator with key pair `kp` sends for callback id `callbackId`.
   * Its signature is over the signup text the hub rebuilds from the message's own
   * callback id and key, so it verifies there whenever the scheme honours `kp`.
   */
  function SignupFor(crypto: Scheme, kp: KeyPair, callbackId: Id): (r: SignupRequest)
    ensures r.callbackId == callbackId && r.ip == ReportedIp && r.publicKey == kp.publicKey
    ensures Honest(crypto, kp) ==>
      VerifyMessage(crypto, SignupText(r.callbackId, r.publicKey), r.publicKey, r.signedMessage)
  {
    SignupRequest(callbackId, ReportedIp, kp.publicKey, SignMessage(crypto, SignupText(callbackId, kp.publicKey), kp))
  }

  /**
   * The reply to `request`: it echoes the request's callback id and website id,
   * carries the validator id known when it is sent, and is signed over the reply
   * text of that callback id.
   */
  function BuildReply(crypto: Scheme, kp: KeyPair, request: ValidateRequest, validatorId: Option<Id>,
                      outcome: ProbeOutcome, startTime: int): (r: ValidateReply)
    ensures r.callbackId == request.callbackId && r.websiteId == request.websiteId
    ensures r.validatorId == validatorId
    ensures (r.status, r.latency) == Classify(outcome, startTime)
    ensures r.signedMessage == SignMessage(crypto, ReplyText(request.callbackId), kp)
  {
    var signature := SignMessage(crypto, ReplyText(request.callbackId), kp);
    var (status, latency) := Classify(outcome, startTime);
    ValidateReply(request.callbackId, status, latency, request.websiteId, validatorId, signature)
  }

  /**
   * The signup ids still awaited and the validator id after the ack `ack`: a
   * pending id is consumed and its continuation adopts the acknowledged validator
   * id; an unknown id changes nothing.
   */
  function ResolveAck(awaited: set<Id>, current: Option<Id>, ack: SignupAck): (r: (set<Id>, Option<Id>))
    ensures r.0 == awaited - {ack.callbackId}
    ensures r.1 == if ack.callbackId in awaited then Some(ack.validatorId) else current
  {
    if ack.callbackId in awaited then (awaited - {ack.callbackId}, Some(ack.validatorId))
    else (awaited, current)
  }

  /** An ack takes effect once: delivering it again changes nothing more. */
  lemma AckIsOneShot(awaited: set<Id>, current: Option<Id>, ack: SignupAck)
    ensures var (a, v) := ResolveAck(awaited, current, ack); ResolveAck(a, v, ack) == (a, v)
  {
  }

  /** Until an ack for an awaited id arrives, the validator id stays what it was. */
  lemma UnknownAckChangesNothing(awaited: set<Id>, current: Option<Id>, ack: SignupAck)
    requires ack.callbackId !in awaited
    ensures ResolveAck(awaited, current, ack) == (awaited, current)
  {
  }

  class ValidatorAgent {
    const crypto: Scheme
    const keypair: KeyPair
    /**
     * `CALLBACKS`: the ids of the signups whose ack is awaited. Every continuation
     * stored there adopts the acknowledged validator id, so the id is all it keeps.
     */
    var awaited: set<Id>
    /** `validatorId`: absent until an ack is resolved. */
    var validatorId: Option<Id>
    var link: Link
    /** Every message sent to the hub, in order. */
    var sent: seq<IncomingMessage>
    /** How many callback ids have been drawn. */
    var nextCallback: nat

    /** Every awaited id was drawn. */
    ghost predicate Valid()
      reads this
    {
      IssuedBefore(awaited, nextCallback)
    }

    /** The start of the process: nothing awaited, no validator id, the first connection under way. */
    constructor (crypto: Scheme, keypair: KeyPair)
      ensures Valid()
      ensures this.crypto == crypto && this.keypair == keypair
      ensures awaited == {} && validatorId == None && link == Connecting && sent == [] && nextCallback == 0
    {
      this.crypto := crypto;
      this.keypair := keypair;
      awaited := {};
      validatorId := None;
      link := Connecting;
      sent := [];
      nextCallback := 0;
    }

    /**
     * `onopen`: draw a fresh callback id, register its continuation, then send the
     * signup signed over the signup text of that id and this node's key.
     */
    method OnOpen()
      requires Valid() && link == Connecting
      modifies this`awaited, this`sent, this`nextCallback, this`link
      ensures Valid()
      ensures old(nextCallback) !in old(awaited)
      ensures awaited == old(awaited) + {old(nextCallback)}
      ensures sent == old(sent) + [SignupMessage(SignupFor(crypto, keypair, old(nextCallback)))]
      ensures nextCallback == old(nextCallback) + 1 && link == Open
      ensures validatorId == old(validatorId)
    {
      var callbackId := nextCallback;
      nextCallback := nextCallback + 1;
      awaited := awaited + {callbackId};
      var signedMessage := SignMessage(crypto, SignupText(callbackId, keypair.publicKey), keypair);
      sent := sent + [SignupMessage(SignupRequest(callbackId, ReportedIp, keypair.publicKey, signedMessage))];
      link := Open;
    }

    /** `onmessage`: an ack is resolved; a validate request is probed at `startTime` and answered. */
    method OnMessage(msg: OutgoingMessage, startTime: int, outcome: ProbeOutcome)
      requires Valid() && link == Open
      modifies this`awaited, this`validatorId, this`sent
      ensures Valid()
      ensures msg.AckMessage? ==>
        (awaited, validatorId) == ResolveAck(old(awaited), old(validatorId), msg.ack) && sent == old(sent)
      ensures msg.RequestMessage? ==>
        awaited == old(awaited) && validatorId == old(validatorId) &&
        sent == old(sent) + [ReplyMessage(BuildReply(crypto, keypair, msg.request, validatorId, outcome, startTime))]
    {
      match msg
      case AckMessage(ack) => OnSignupAck(ack);
      case RequestMessage(request) => ValidateHandler(request, startTime, outcome);
    }

    /** The `signup` branch: run the continuation of a pending id, then delete the id. */
    method OnSignupAck(ack: SignupAck)
      requires Valid()
      modifies this`awaited, this`validatorId
      ensures Valid()
      ensures (awaited, validatorId) == ResolveAck(old(awaited), old(validatorId), ack)
    {
      if ack.callbackId in awaited {
        validatorId := Some(ack.validatorId);
      }
      awaited := awaited - {ack.callbackId};
    }

    /** `validateHandler`: exactly one reply per request. */
    method ValidateHandler(request: ValidateRequest, startTime: int, outcome: ProbeOutcome)
      modifies this`sent
      ensures sent == old(sent) + [ReplyMessage(BuildReply(crypto, keypair, request, validatorId, outcome, startTime))]
    {
      var signature := SignMessage(crypto, ReplyText(request.callbackId), keypair);
      var reply;
      match outcome {
        case Responded(httpStatus, endTime) =>
          var latency := endTime - startTime;
          reply := ValidateReply(request.callbackId, if httpStatus == HttpOk then Up else Down, latency,
                                 request.websiteId, validatorId, signature);
        case Threw =>
          reply := ValidateReply(request.callbackId, Down, ErrorLatency, request.websiteId, validatorId, signature);
      }
      sent := sent + [ReplyMessage(reply)];
    }

    /**
     * `onclose` of the current connection, opened or not: always schedule a new
     * connection attempt; the globals are kept.
     */
    method OnClose()
      requires !link.Reconnecting?
      modifies this`link
      ensures link == Reconnecting(ReconnectDelay)
    {
      link := Reconnecting(ReconnectDelay);
    }

    /**
     * The timer scheduled by a close fires: `main` runs again and starts a new
     * connection. This is the only way from a closed connection to a new signup.
     */
    method ReconnectTimerFired()
      requires link.Reconnecting?
      modifies this`link
      ensures link == Connecting
    {
      link := Connecting;
    }
  }
}
