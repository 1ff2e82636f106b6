/**
 * The hub's view of the database: validators found by public key, the tick table
 * and each validator's pending payout. The database client is an external service;
 * its operations are modelled as functions on a value, so a transaction either
 * yields the new value or fails and leaves the old one in place.
 */
module Store {
  import opened Wrappers
  import opened Protocol
  import opened FreshIds

  /** The location stored for a validator created at signup. */
  const UnknownLocation: string := "unknown"

  datatype ValidatorRecord = ValidatorRecord(publicKey: PublicKey, ip: string, location: string, pendingPayouts: int)

  /** One persisted check result. Its database-generated id is not modelled. */
  datatype Tick = Tick(websiteId: Id, validatorId: Id, status: Status, latency: int, createdAt: int)

  /**
   * `byKey` is the lookup by public key, `validators` the records by id, and
   * `nextSerial` the state of the supply that names new validators.
   */
  datatype Db = Db(byKey: map<PublicKey, Id>, validators: map<Id, ValidatorRecord>, ticks: seq<Tick>, nextSerial: nat)

  /** The key index and the records agree, and every record id came from the supply. */
  ghost predicate Valid(db: Db) {
    (forall pk :: pk in db.byKey ==>
       db.byKey[pk] in db.validators && db.validators[db.byKey[pk]].publicKey == pk) &&
    (forall id :: id in db.validators ==>
       db.validators[id].publicKey in db.byKey && db.byKey[db.validators[id].publicKey] == id) &&
    IssuedBefore(db.validators.Keys, db.nextSerial)
  }

  /** `id` names a stored validator whose public key is `publicKey`. */
  ghost predicate HasKey(db: Db, id: Id, publicKey: PublicKey) {
    id in db.validators && db.validators[id].publicKey == publicKey
  }

  /** `validator.findFirst({ where: { publicKey } })`. */
  function FindByKey(db: Db, publicKey: PublicKey): (r: Option<Id>)
    requires Valid(db)
    ensures r.Some? ==> r.value in db.validators && db.validators[r.value].publicKey == publicKey
    ensures r.None? ==> forall id :: id in db.validators ==> db.validators[id].publicKey != publicKey
  {
    if publicKey in db.byKey then Some(db.byKey[publicKey]) else None
  }

  /** `validator.create({ data: { ip, publicKey, location: "unknown" } })`, for a key not yet stored. */
  function CreateValidator(db: Db, ip: string, publicKey: PublicKey): (r: (Db, Id))
    requires Valid(db)
    requires FindByKey(db, publicKey).None?
    ensures Valid(r.0)
    ensures r.1 !in db.validators
    ensures r.0.validators == db.validators[r.1 := ValidatorRecord(publicKey, ip, UnknownLocation, 0)]
    ensures r.0.ticks == db.ticks
    ensures FindByKey(r.0, publicKey) == Some(r.1)
  {
    var id := db.nextSerial;
    (Db(db.byKey[publicKey := id],
        db.validators[id := ValidatorRecord(publicKey, ip, UnknownLocation, 0)],
        db.ticks,
        db.nextSerial + 1),
     id)
  }

  /**
   * `after` is `before` with the tick `t` appended and `amount` added to the payout
   * of the tick's validator, every other record and the key index left as they were.
   */
  ghost predicate Credited(before: Db, after: Db, t: Tick, amount: int) {
    t.validatorId in before.validators &&
    after.ticks == before.ticks + [t] &&
    after.byKey == before.byKey && after.nextSerial == before.nextSerial &&
    after.validators.Keys == before.validators.Keys &&
    after.validators[t.validatorId] ==
      before.validators[t.validatorId].(pendingPayouts := before.validators[t.validatorId].pendingPayouts + amount) &&
    (forall id :: id in before.validators && id != t.validatorId ==> after.validators[id] == before.validators[id])
  }

  /** Crediting keeps the database consistent and every validator's public key. */
  lemma CreditedKeepsKeys(before: Db, after: Db, t: Tick, amount: int)
    requires Valid(before) && Credited(before, after, t, amount)
    ensures Valid(after)
    ensures forall id, pk :: HasKey(before, id, pk) ==> HasKey(after, id, pk)
  {
  }

  /**
   * The transaction of a verified reply: insert the tick and add `amount` to the
   * payout of `validatorId`. It fails as a whole (`None`) when the validator id is
   * absent or names no stored validator, because the update finds no record.
   */
  function RecordTickAndPay(db: Db, websiteId: Id, validatorId: Option<Id>, status: Status,
                            latency: int, createdAt: int, amount: int): (r: Option<Db>)
    ensures r.Some? <==> validatorId.Some? && validatorId.value in db.validators
    ensures r.Some? ==> Credited(db, r.value, Tick(websiteId, validatorId.value, status, latency, createdAt), amount)
  {
    match validatorId
    case None => None
    case Some(v) =>
      if v !in db.validators then None
      else
        var rec := db.validators[v];
        Some(db.(ticks := db.ticks + [Tick(websiteId, v, status, latency, createdAt)],
                 validators := db.validators[v := rec.(pendingPayouts := rec.pendingPayouts + amount)]))
  }
}
