/** `postgresCoinsRepo`: the `leal_coins` column of `customer`. */
module CoinsRepo {
  import opened Wrappers
  import opened CustomerStore

  /** `GetCoinsByCustomerID`: the customer's `leal_coins`; `sql.ErrNoRows`
      for an unknown id. */
  method GetCoinsByCustomerID(db: CustomerDb, customerId: int, fault: Fault) returns (r: Result<int>)
    ensures FailsAt(fault, 0) ==> r == Err(DbFailure)
    ensures !FailsAt(fault, 0) && FindCustomer(db.customers, customerId).None? ==> r == Err(NoRows)
    ensures !FailsAt(fault, 0) && FindCustomer(db.customers, customerId).Some? ==>
      r == Ok(FindCustomer(db.customers, customerId).value.lealCoins)
  {
    if FailsAt(fault, 0) {
      return Err(DbFailure);
    }
    var c := FindCustomer(db.customers, customerId);
    if c.None? {
      return Err(NoRows);
    }
    return Ok(c.value.lealCoins);
  }

  /** `UpdateCustomerCoins`: adds the delta to `leal_coins`, floored at 0.
      An unknown id changes no row and is no error. */
  method UpdateCustomerCoins(db: CustomerDb, customerId: int, delta: int, fault: Fault) returns (r: Outcome)
    requires db.Valid()
    modifies db
    ensures db.Valid()
    ensures db.points == old(db.points) && db.transactions == old(db.transactions)
    ensures db.purchases == old(db.purchases) && db.redemptions == old(db.redemptions) && db.outbox == old(db.outbox)
    ensures FailsAt(fault, 0) ==> r == Fail(DbFailure) && db.customers == old(db.customers)
    ensures !FailsAt(fault, 0) ==> r == Pass && db.customers == AddLealCoins(old(db.customers), customerId, delta)
  {
    if FailsAt(fault, 0) {
      return Fail(DbFailure);
    }
    AddLealCoinsSerial(db.customers, customerId, delta);
    db.customers := AddLealCoins(db.customers, customerId, delta);
    return Pass;
  }
}
