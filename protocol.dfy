/**
 * The wire vocabulary shared by the hub and the validators: identifiers, the four
 * message bodies, and the two canonical texts that are signed. Both sides build the
 * canonical texts with the functions below, so the validator signs exactly the text
 * the hub reconstructs.
 */
module Protocol {
  import opened Wrappers
  import opened FreshIds

  /** A public key as its base58 text. */
  type PublicKey = string
  /** A detached signature as it travels: the JSON text of its byte array. */
  type Signature = string
  /** The identity of one live connection. */
  type Socket = nat

  datatype Status = Up | Down

  /** validator -> hub, `type: "signup"`. */
  datatype SignupRequest = SignupRequest(callbackId: Id, ip: string, publicKey: PublicKey, signedMessage: Signature)

  /** hub -> validator, `type: "signup"`: the acknowledgement. */
  datatype SignupAck = SignupAck(validatorId: Id, callbackId: Id)

  /** hub -> validator, `type: "validate"`. `websiteId` is absent when the sender leaves it out. */
  datatype ValidateRequest = ValidateRequest(url: string, callbackId: Id, websiteId: Option<Id>)

  /** validator -> hub, `type: "validate"`: the reply. `validatorId` is absent before the signup ack. */
  datatype ValidateReply = ValidateReply(
    callbackId: Id, status: Status, latency: int,
    websiteId: Option<Id>, validatorId: Option<Id>, signedMessage: Signature)

  /** Messages the hub receives. */
  datatype IncomingMessage = SignupMessage(signup: SignupRequest) | ReplyMessage(reply: ValidateReply)

  /** Messages a validator receives. */
  datatype OutgoingMessage = AckMessage(ack: SignupAck) | RequestMessage(request: ValidateRequest)

  /** A message the hub sends over the connection `to`. */
  datatype Delivery = Delivery(to: Socket, message: OutgoingMessage)

  const SignupPrefix: string := "Signed message for "
  const SignupSeparator: string := ", "
  const ReplyPrefix: string := "Replying to "

  /** The signup template over whatever callback text arrives on the wire. */
  function WireSignupText(callbackId: string, publicKey: PublicKey): string {
    SignupPrefix + callbackId + SignupSeparator + publicKey
  }

  /**
   * The text signed at signup: "Signed message for {callbackId}, {publicKey}". The
   * id can be read back from it: the id's text runs up to the first comma after
   * the prefix, and the key follows the separator.
   */
  function SignupText(callbackId: Id, publicKey: PublicKey): (t: string)
    ensures SignupPrefix <= t
    ensures var rest := t[|SignupPrefix|..]; var k := CommaIndex(rest);
      ParseId(rest[..k]) == Some(callbackId) && rest[k..] == SignupSeparator + publicKey
  {
    var id := IdText(callbackId);
    ParseIdText(callbackId);
    IdTextHasNoComma(callbackId);
    CommaIndexAfter(id, SignupSeparator + publicKey);
    assert WireSignupText(id, publicKey)[|SignupPrefix|..] == id + (SignupSeparator + publicKey);
    WireSignupText(id, publicKey)
  }

  /** The text signed in a validate reply: "Replying to {callbackId}", from which the id reads back. */
  function ReplyText(callbackId: Id): (t: string)
    ensures ReplyPrefix <= t && ParseId(t[|ReplyPrefix|..]) == Some(callbackId)
  {
    ParseIdText(callbackId);
    assert (ReplyPrefix + IdText(callbackId))[|ReplyPrefix|..] == IdText(callbackId);
    ReplyPrefix + IdText(callbackId)
  }

  /** A reply signature is bound to one callback id. */
  lemma ReplyTextInjective(a: Id, b: Id)
    ensures ReplyText(a) == ReplyText(b) ==> a == b
  {
  }

  /** The position of the first comma in `s`, or `|s|` when there is none. */
  function CommaIndex(s: string): (k: nat)
    ensures k <= |s|
    ensures forall i :: 0 <= i < k ==> s[i] != ','
    ensures k < |s| ==> s[k] == ','
  {
    if s == [] || s[0] == ',' then 0 else 1 + CommaIndex(s[1..])
  }

  lemma {:induction false} CommaIndexAfter(c: string, rest: string)
    requires ',' !in c
    requires rest != [] && rest[0] == ','
    ensures CommaIndex(c + rest) == |c|
  {
    if c != [] {
      assert (c + rest)[1..] == c[1..] + rest;
      CommaIndexAfter(c[1..], rest);
    } else {
      assert c + rest == rest;
    }
  }

  /** The signup text determines both the callback id and the public key. */
  lemma SignupTextInjective(c1: Id, p1: PublicKey, c2: Id, p2: PublicKey)
    requires SignupText(c1, p1) == SignupText(c2, p2)
    ensures c1 == c2 && p1 == p2
  {
    var rest := SignupText(c1, p1)[|SignupPrefix|..];
    var k := CommaIndex(rest);
    assert SignupSeparator + p1 == rest[k..] == SignupSeparator + p2;
    assert p1 == (SignupSeparator + p1)[|SignupSeparator|..];
    assert p2 == (SignupSeparator + p2)[|SignupSeparator|..];
  }

  /**
   * Over arbitrary callback texts the signup text is ambiguous: a callback text may
   * itself contain the separator.
   */
  lemma WireSignupTextAmbiguous()
    ensures WireSignupText("a, b", "c") == WireSignupText("a", "b, c")
  {
  }

  /** A key of the first text would have to hold the comma that starts the second text's separator. */
  lemma SeparatorNotInKey(c1: string, p1: PublicKey, c2: string, p2: PublicKey)
    requires ',' !in p1
    requires WireSignupText(c1, p1) == WireSignupText(c2, p2)
    ensures |c2| <= |c1|
  {
    var t := WireSignupText(c1, p1);
    var n := |SignupPrefix|;
    assert t[n + |c2|] == ',' by {
      assert t == SignupPrefix + c2 + SignupSeparator + p2;
    }
    assert t == SignupPrefix + c1 + SignupSeparator + p1;
    assert t[n + |c1| + 1] == ' ';
    assert forall i :: n + |c1| + 2 <= i < |t| ==> t[i] == p1[i - n - |c1| - 2];
  }

  /**
   * With comma-free keys, as base58 keys are, the signup text over any callback
   * texts determines both the callback text and the key.
   */
  lemma WireSignupTextInjective(c1: string, p1: PublicKey, c2: string, p2: PublicKey)
    requires ',' !in p1 && ',' !in p2
    requires WireSignupText(c1, p1) == WireSignupText(c2, p2)
    ensures c1 == c2 && p1 == p2
  {
    SeparatorNotInKey(c1, p1, c2, p2);
    SeparatorNotInKey(c2, p2, c1, p1);
    var t := WireSignupText(c1, p1);
    var n := |SignupPrefix|;
    assert c1 == t[n..n + |c1|] == c2;
    assert p1 == t[n + |c1| + 2..] == p2;
  }

  /** A signup signature can never pass as a reply signature, nor the reverse. */
  lemma SignupTextIsNotReplyText(c: Id, p: PublicKey, c': Id)
    ensures SignupText(c, p) != ReplyText(c')
  {
    assert SignupText(c, p)[0] == 'S' && ReplyText(c')[0] == 'R';
  }
}
