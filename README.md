# Uptime: hub and validator coordination

This project models the coordination core of the Uptime monitor in Dafny. The hub keeps a
registry of live validator connections. It admits validators by a signed signup, and once
a minute it sends every active website to every live validator. It then records a tick and
a payout for each verified validate reply. A validator signs up when its connection opens
and adopts the validator id the hub acknowledges. It answers each validate request with
one signed reply that classifies the probe, and it reconnects five seconds after its
connection closes.

Modules, in dependency order:

- `Wrappers`: `Option`.
- `FreshIds`: generated identifiers. The UUIDs the two nodes draw and the database's
  generated ids are modelled as the serial numbers of their draws. `IssuedBefore` states
  freshness. `IdText` is the decimal text spliced into signed messages, and `ParseId`
  reads it back.
- `Protocol`: the four message bodies and the two canonical signed texts,
  "Signed message for {callbackId}, {publicKey}" and "Replying to {callbackId}". Both
  nodes build them with the same functions.
- `Signatures`: the detached-signature libraries as an abstract `Scheme` of partial
  steps. `VerifyMessage` is the hub's `verifyMessage`. `SignMessage` is the validator's
  `signMessage`. `Honest` says that a scheme accepts a key pair's own signatures.
- `Store`: the database as a value. It holds the validators found by public key, the
  ticks and the pending payouts. The tick-and-payout transaction `RecordTickAndPay`
  either yields the new value or fails as a whole.
- `Registry`: the ordered `availableValidators` list. `Unregister` is the splice made at
  disconnect.
- `Dispatch`: the specification of one dispatch pass. It gives the requests sent
  (`PassSent`) and the callback table after the pass (`PassTable`), with websites outer,
  live entries inner and one fresh id per pair.
- `Hub`: the hub as a class. Its fields are the registry, the callback table (each
  closure is replaced by the record it closes over), the database, the messages sent and
  the id counter. Each handler is a method proved against the functions above.
- `Validator`: the pure probe classification and reply construction, and the validator
  node as a class. Its fields are the awaited signup ids, `validatorId`, the connection
  state, the messages sent and the id counter.
- `EndToEnd`: lemmas that connect the two nodes. An honest signup is admitted and its ack
  adopted. An honest reply to a dispatched request records exactly one tick and one
  payout when it carries the id of a stored validator. A reply sent before the ack
  carries no id and records nothing. A signature made for one callback id is refused
  for any other.

Behaviour of the source worth knowing:

- The hub's validate request carries only the url and the callback id
  (apps/hub/index.ts:116-119). The validator's reply therefore echoes an absent website
  id (`None`). The tick takes its website from the dispatch record
  (apps/hub/index.ts:134).
- The tick's validator and the payout go to the validator id named in the reply
  (apps/hub/index.ts:124, 134-137). That field is not covered by the signature, which
  signs only "Replying to {callbackId}" (apps/hub/index.ts:125).
  `EndToEnd.HonestReplyIsRecorded` therefore holds for any stored validator id `v`, not
  only the dispatched-to one.
- The validator's `CALLBACKS` holds only continuations that adopt the acknowledged id
  (apps/validator/index.ts:24-27). It is modelled as the set of awaited ids.

## Model

| member | source | states |
|---|---|---|
| FreshIds.ParseIdText | apps/hub/index.ts:115 | reading back the text of a drawn id gives that id |
| FreshIds.IdTextInjective | apps/validator/index.ts:23 | distinct ids have distinct texts, so each signed text names one id |
| FreshIds.IdTextHasNoComma | apps/hub/index.ts:31 | an id's text contains no comma, so the signup text separates id and key |
| Protocol.SignupText | apps/hub/index.ts:31 | the signup text begins with the prefix, and the callback id reads back from the text up to the first comma, with the separator and the key after it |
| Protocol.ReplyText | apps/hub/index.ts:125 | the reply text begins with the prefix, and the callback id reads back from the rest |
| Protocol.SignupTextInjective | apps/hub/index.ts:31 | equal signup texts over drawn callback ids have equal callback ids and equal public keys |
| Protocol.WireSignupTextAmbiguous | apps/hub/index.ts:31 | over arbitrary callback texts two different id and key pairs give the same signup text |
| Protocol.WireSignupTextInjective | apps/hub/index.ts:31 | over arbitrary callback texts and comma-free keys, equal signup texts have equal callback texts and equal keys |
| Protocol.ReplyTextInjective | apps/hub/index.ts:125 | equal reply texts have equal callback ids, so a reply signature is bound to one dispatch |
| Protocol.SignupTextIsNotReplyText | apps/validator/index.ts:29 | no signup text equals a reply text, so neither signature passes for the other |
| Signatures.VerifyMessage | apps/hub/index.ts:83-96 | true only when the signature and the key both decode and the detached verifier returns true |
| Signatures.SignMessage | apps/validator/index.ts:106-110 | under an encoding that JSON parsing undoes, the hub decodes exactly the detached signature of the text's UTF-8 bytes under the secret key |
| Signatures.MalformedInputIsRejected | apps/hub/index.ts:84-95 | a signature or key that fails to decode yields false instead of an exception |
| Store.FindByKey | apps/hub/index.ts:58 | finds the stored validator with the key, or reports that no stored validator has it |
| Store.CreateValidator | apps/hub/index.ts:70-72 | adds exactly one record under a fresh id, at location "unknown" with no payout, that is then found by its key |
| Store.RecordTickAndPay | apps/hub/index.ts:132-140 | succeeds exactly when the reply names a stored validator, and then appends the one tick and adds the amount to that validator's payout, changing nothing else |
| Store.CreditedKeepsKeys | apps/hub/index.ts:132-140 | a recorded tick and payout keeps the database consistent and every validator's key |
| Registry.FindSocket | apps/hub/index.ts:49 | the first index whose socket is the closed one, or none when no entry has it |
| Registry.Unregister | apps/hub/index.ts:49-50 | no match leaves the registry unchanged; otherwise exactly the found entry is removed |
| Registry.UnregisterRemovesOne | apps/hub/index.ts:47-51 | the closed socket loses exactly one entry when it has any, so a socket registered twice keeps one |
| Registry.UnregisterKeepsOthers | apps/hub/index.ts:47-51 | every other connection's entries stay, in the same order |
| Registry.UnregisterUndoesRegister | apps/hub/index.ts:47-51 | closing a connection that signed up once restores the registry from before its signup |
| Dispatch.ActiveWebsites | apps/hub/index.ts:100 | holds exactly the websites that are not disabled |
| Dispatch.EmptyPass | apps/hub/index.ts:102-110 | with no active website or no live validator a pass sends nothing and registers nothing |
| Dispatch.PassSentLength | apps/hub/index.ts:112-120 | a pass sends exactly websites times validators requests after what was already sent |
| Dispatch.PassSentAt | apps/hub/index.ts:112-120 | the request at position i times validators plus j goes to validator j's socket for website i's url, under the id of that draw and without a website id |
| Dispatch.PassTableKeys | apps/hub/index.ts:115-121 | the ids pending after a pass are those pending before plus exactly the ids drawn in it |
| Dispatch.PassTableSize | apps/hub/index.ts:115-121 | a pass adds exactly websites times validators entries, all under distinct ids |
| Dispatch.PassTableKeeps | apps/hub/index.ts:121 | a pass keeps every entry already pending |
| Dispatch.PassTableAt | apps/hub/index.ts:121-142 | the id sent to validator j for website i holds that website and that validator's id and key |
| Hub.SignupAccepted | apps/hub/index.ts:30-35 | an accepted signup's key and signature decode, and the detached verifier accepts the signup text rebuilt from its own callback id and key |
| Hub.ReplyVerified | apps/hub/index.ts:121-129 | a reply with no pending id is refused; an accepted reply is signed over its id's reply text under the key of the validator the request was dispatched to |
| Hub.Admit | apps/hub/index.ts:58-79 | a known key reuses its id and leaves the database unchanged; an unknown key gets exactly one new record at location "unknown" |
| Hub.AdmitIsIdempotent | apps/hub/index.ts:58-67 | signing up again with the same key yields the same id and no new record |
| Hub.ReplyDb | apps/hub/index.ts:121-140 | an unverified reply changes nothing; a verified one records the tick and the payout together or neither, with the tick's website taken from the dispatch record |
| Hub.ReplyIsOneShot | apps/hub/index.ts:43-44 | once its id is deleted, the same reply changes nothing more |
| Hub.Hub.constructor | apps/hub/index.ts:8-9 | the hub starts with an empty registry and an empty callback table |
| Hub.Hub.OnMessage | apps/hub/index.ts:24-46 | a signup is admitted exactly when its signature verifies; a reply removes its id and updates the database as ReplyDb says |
| Hub.Hub.OnSignup | apps/hub/index.ts:28-40 | a signup that fails verification leaves the registry, the database and the messages sent unchanged; otherwise one ack and one registry entry with the admitted id |
| Hub.Hub.SignupHandler | apps/hub/index.ts:55-81 | find or create, then exactly one ack with that id and the callback id, and one appended entry with that id, socket and key |
| Hub.Hub.FindIndex | apps/hub/index.ts:49 | the first index whose socket matches, or -1 |
| Hub.Hub.OnClose | apps/hub/index.ts:47-51 | the registry becomes Unregister of the old registry; nothing else changes |
| Hub.Hub.DispatchPass | apps/hub/index.ts:98-145 | the messages sent and the callback table become the pass specification over the active websites and the live registry, and the counter advances by their product |
| Hub.Hub.SendToAll | apps/hub/index.ts:114-143 | one request and one pending record per live entry for a website, in registry order, under consecutive fresh ids |
| Hub.Hub.OnValidateReply | apps/hub/index.ts:41-45 | the reply's id is always deleted, and the database changes only as ReplyDb says |
| Hub.Hub.RunContinuation | apps/hub/index.ts:121-140 | the stored continuation verifies against the dispatched-to key and then runs the transaction |
| Validator.Classify | apps/validator/index.ts:71-103 | a response is up exactly when its status is 200, with the elapsed time as latency; a thrown probe is down with latency 1000 |
| Validator.ThrownProbeIgnoresTime | apps/validator/index.ts:90-102 | a thrown probe reports the same result whenever it started |
| Validator.ResponseLatencyIsElapsed | apps/validator/index.ts:68-74 | a response reports as latency exactly the time it took |
| Validator.SignupFor | apps/validator/index.ts:29-40 | the signup carries the callback id, the reported ip and the node's key, and its signature verifies over the text the hub rebuilds from those fields when the scheme honours the key pair |
| Validator.BuildReply | apps/validator/index.ts:66-104 | the reply echoes the request's callback id and website id, carries the current validator id and the classification, and is signed over "Replying to {callbackId}" |
| Validator.ResolveAck | apps/validator/index.ts:47-49 | an ack for an awaited id sets the validator id and consumes the id; an unknown id changes nothing |
| Validator.AckIsOneShot | apps/validator/index.ts:47-49 | delivering the same ack again changes nothing more |
| Validator.UnknownAckChangesNothing | apps/validator/index.ts:47-49 | an ack for an id not awaited leaves the awaited ids and the validator id as they were |
| Validator.ValidatorAgent.constructor | apps/validator/index.ts:8-9 | the validator starts with no awaited id and no validator id |
| Validator.ValidatorAgent.OnOpen | apps/validator/index.ts:20-41 | only on a connection under way: a fresh id is registered before the signup signed over that id and the node's key is sent, and the connection is open |
| Validator.ValidatorAgent.OnMessage | apps/validator/index.ts:43-54 | only on an open connection: an ack is resolved as ResolveAck says; a request gets exactly one reply appended |
| Validator.ValidatorAgent.OnSignupAck | apps/validator/index.ts:47-49 | the awaited ids and the validator id become ResolveAck of the old ones |
| Validator.ValidatorAgent.ValidateHandler | apps/validator/index.ts:66-104 | exactly one reply is sent per request, the one BuildReply describes |
| Validator.ValidatorAgent.OnClose | apps/validator/index.ts:60-63 | the close of a connection, opened or not, schedules a reconnect after 5000 ms and keeps the validator id and the awaited ids |
| Validator.ValidatorAgent.ReconnectTimerFired | apps/validator/index.ts:12-18 | only a scheduled reconnect fires, and running `main` again starts a new connection attempt, the only way back to a signup |
| EndToEnd.SignupRoundTrip | apps/validator/index.ts:20-49 | an honest validator's signup is accepted, acknowledged with the id stored for its key, and that id is adopted |
| EndToEnd.ReplayedSignupIsRefused | apps/hub/index.ts:30-35 | when signatures bind their texts, a signup signature made for one callback id is accepted only in a signup carrying that id |
| EndToEnd.ReplayedReplyIsRefused | apps/hub/index.ts:125-129 | when signatures bind their texts, a reply signature the dispatched-to key made for one callback id verifies only in a reply to that id |
| EndToEnd.HonestReplyIsRecorded | apps/hub/index.ts:121-140 | an honest reply to a request dispatched to its key, carrying the id of a stored validator, is verified and records one tick with the probe's status and latency and one payout of 100 to that validator |
| EndToEnd.ReplyBeforeAckRecordsNothing | apps/validator/index.ts:79-89 | a reply sent before the ack carries no validator id, so the hub records nothing |
| EndToEnd.DispatchedReplyIsRecorded | apps/hub/index.ts:112-140 | the request a pass sends for website i to validator j, answered honestly, records a tick for website i |
| EndToEnd.UpIn120Milliseconds | apps/validator/index.ts:71-89 | a 200 after 120 ms gives the tick (UP, 120) and raises the payout from 0 to 100 |

## Left out

- WebSocket transport, the HTTP upgrade, `JSON.parse` and `JSON.stringify` envelopes, and
  logging. Messages are values, and what a node sends is appended to its `outbox` or
  `sent` sequence.
- The signing and verifying libraries. They are fields of an abstract `Scheme`, and only
  the honesty of a key pair is assumed where a lemma needs it.
- The database client. It is a value with one atomic transaction, and the tick's own
  generated id and the website foreign key check are not modelled.
- `randomUUID`, `randomUUIDv7` and generated database ids. They are serial numbers of
  draws, so the model captures their freshness and nothing about their format.
- `Date.now`, `fetch` and the timers. The start time, the probe outcome and the clock
  are parameters of the handlers that use them. A pass runs when `DispatchPass` is
  called, and the reconnect delay is the value carried by the `Reconnecting` state.
- Async interleaving. Each handler is one atomic step. The dispatch pass
  (apps/hub/index.ts:112-144) has no `await` and the reply branch deletes its id
  synchronously (apps/hub/index.ts:43-44), so those are atomic in the source too. The
  interleavings that do change behaviour are not modelled:
  - a close that arrives while a signup awaits verification or the database
    (apps/hub/index.ts:30, 37, 58, 70) finds no entry (apps/hub/index.ts:49). The push
    at apps/hub/index.ts:65 or 79 then leaves an entry for a closed socket, and every
    later pass dispatches to it;
  - two concurrent signups with the same new key both miss at apps/hub/index.ts:58 and
    both create at apps/hub/index.ts:70. That gives two records with one key, which
    `Store.Valid` rules out;
  - the validator reads `validatorId` (apps/validator/index.ts:86, 99) after awaiting
    the probe (apps/validator/index.ts:72), so an ack resolved meanwhile changes the
    reply;
  - a reply to a request received before a close is sent on the closed socket, so the
    one reply per request need not reach the hub.
- Protocol.SignupTextInjective: the callback id the hub reads at apps/hub/index.ts:31 is
  any text the client sends, but the model types it as a drawn id, whose decimal text
  has no comma. For arbitrary callback texts the signup text is ambiguous
  (`Protocol.WireSignupTextAmbiguous`), and only comma-free keys, as base58 keys are,
  make it unambiguous (`Protocol.WireSignupTextInjective`).
- The private-key loading from the environment and the websocket error handler, which
  only logs.
- Hub.Hub.RunContinuation: the `data.type === "validate"` test inside the stored
  continuation is not modelled, because the continuation is only ever called from the
  validate branch.
- Hub.Hub.DispatchPass: the early returns for no active website or no live validator
  are not separate branches. The loop over an empty sequence has the same effect,
  which `Dispatch.EmptyPass` states.
