/** `postgresCustomerRepo`: the `customer` table as the customer use cases
    and the purchase flow see it. */
module CustomerRepo {
  import opened Wrappers
  import opened CustomerStore

  /** `CreateCustomer`: inserts the row with `leal_coins` 0 (and `coins` at
      its default 0) and the database date; the returned customer carries the
      new id, name, email, phone and token only. */
  method CreateCustomer(db: CustomerDb, name: string, email: string, phone: string, passHash: string,
                        token: string, now: int, fault: Fault) returns (r: Result<Customer>)
    requires db.Valid()
    modifies db
    ensures db.Valid()
    ensures db.points == old(db.points) && db.transactions == old(db.transactions)
    ensures db.purchases == old(db.purchases) && db.redemptions == old(db.redemptions) && db.outbox == old(db.outbox)
    ensures FailsAt(fault, 0) ==> r == Err(DbFailure) && db.customers == old(db.customers)
    ensures !FailsAt(fault, 0) ==>
      var id := |old(db.customers)| + 1;
      db.customers == old(db.customers) + [Customer(id, name, email, phone, passHash, token, 0, 0, now)]
      && r == Ok(Customer(id, name, email, phone, "", token, 0, 0, 0))
  {
    if FailsAt(fault, 0) {
      return Err(DbFailure);
    }
    var id := |db.customers| + 1;
    db.customers := db.customers + [Customer(id, name, email, phone, passHash, token, 0, 0, now)];
    return Ok(Customer(id, name, email, phone, "", token, 0, 0, 0));
  }

  /** `GetCustomerByID`: the row as loaded; `sql.ErrNoRows` when absent. */
  method GetCustomerByID(db: CustomerDb, id: int, fault: Fault) returns (r: Result<Customer>)
    ensures FailsAt(fault, 0) ==> r == Err(DbFailure)
    ensures !FailsAt(fault, 0) && FindCustomer(db.customers, id).None? ==> r == Err(NoRows)
    ensures !FailsAt(fault, 0) && FindCustomer(db.customers, id).Some? ==>
      r == Ok(Loaded(FindCustomer(db.customers, id).value))
  {
    if FailsAt(fault, 0) {
      return Err(DbFailure);
    }
    var c := FindCustomer(db.customers, id);
    if c.None? {
      return Err(NoRows);
    }
    return Ok(Loaded(c.value));
  }

  /** `GetCustomerByEmail`: the first row with that email, as loaded;
      `sql.ErrNoRows` when there is none. */
  method GetCustomerByEmail(db: CustomerDb, email: string, fault: Fault) returns (r: Result<Customer>)
    ensures FailsAt(fault, 0) ==> r == Err(DbFailure)
    ensures !FailsAt(fault, 0) && FindCustomerByEmail(db.customers, email).None? ==> r == Err(NoRows)
    ensures !FailsAt(fault, 0) && FindCustomerByEmail(db.customers, email).Some? ==>
      r == Ok(Loaded(FindCustomerByEmail(db.customers, email).value))
  {
    if FailsAt(fault, 0) {
      return Err(DbFailure);
    }
    var c := FindCustomerByEmail(db.customers, email);
    if c.None? {
      return Err(NoRows);
    }
    return Ok(Loaded(c.value));
  }

  /** `UpdateCustomerToken`. */
  method UpdateCustomerToken(db: CustomerDb, id: int, token: string, fault: Fault) returns (r: Outcome)
    requires db.Valid()
    modifies db
    ensures db.Valid()
    ensures db.points == old(db.points) && db.transactions == old(db.transactions)
    ensures db.purchases == old(db.purchases) && db.redemptions == old(db.redemptions) && db.outbox == old(db.outbox)
    ensures FailsAt(fault, 0) ==> r == Fail(DbFailure) && db.customers == old(db.customers)
    ensures !FailsAt(fault, 0) ==> r == Pass && db.customers == SetToken(old(db.customers), id, token)
  {
    if FailsAt(fault, 0) {
      return Fail(DbFailure);
    }
    db.customers := SetToken(db.customers, id, token);
    return Pass;
  }
}
