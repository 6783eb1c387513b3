/** `customerService`: sign-up, login and token checks. Hashing is the
    parameter `hash`; a generated token is an input, None when
    `GenerateToken` fails; `now` is the database clock. */
module CustomerUsecases {
  import opened Wrappers
  import opened CustomerStore
  import CustomerRepo

  /** `CreateCustomer`: any empty field and a failed token are rejected
      before the insert; the row stores the hash of the password. */
  method CreateCustomer(db: CustomerDb, name: string, email: string, phone: string, pass: string,
                        hash: string -> string, token: Option<string>, now: int, fault: Fault)
    returns (r: Result<Customer>)
    requires db.Valid()
    modifies db
    ensures db.Valid()
    ensures db.points == old(db.points) && db.transactions == old(db.transactions)
    ensures db.purchases == old(db.purchases) && db.redemptions == old(db.redemptions) && db.outbox == old(db.outbox)
    ensures r.Err? ==> db.customers == old(db.customers)
    ensures name == [] || pass == [] || email == [] || phone == [] ==>
      r == Err(Failure("name, email, phone and password are required"))
    ensures name != [] && pass != [] && email != [] && phone != [] && token.None? ==>
      r == Err(Failure("error generating token"))
    ensures name != [] && pass != [] && email != [] && phone != [] && token.Some? ==>
      var id := |old(db.customers)| + 1;
      if FailsAt(fault, 0) then r == Err(DbFailure)
      else
        db.customers == old(db.customers) + [Customer(id, name, email, phone, hash(pass), token.value, 0, 0, now)]
        && r == Ok(Customer(id, name, email, phone, "", token.value, 0, 0, 0))
  {
    if name == [] || pass == [] || email == [] || phone == [] {
      return Err(Failure("name, email, phone and password are required"));
    }
    var passHash := hash(pass);
    if token.None? {
      return Err(Failure("error generating token"));
    }
    r := CustomerRepo.CreateCustomer(db, name, email, phone, passHash, token.value, now, fault);
  }

  /** `LoginCustomer`: the email lookup (an unknown email is the lookup's
      `sql.ErrNoRows`), the password check and a failed token come before
      any write; then the token update. The returned customer is the row as
      loaded, with the new token. */
  method LoginCustomer(db: CustomerDb, email: string, pass: string, hash: string -> string, token: Option<string>,
                       lookupFault: Fault, updateFault: Fault) returns (r: Result<Customer>)
    requires db.Valid()
    modifies db
    ensures db.Valid()
    ensures db.points == old(db.points) && db.transactions == old(db.transactions)
    ensures db.purchases == old(db.purchases) && db.redemptions == old(db.redemptions) && db.outbox == old(db.outbox)
    ensures r.Err? ==> db.customers == old(db.customers)
    ensures FailsAt(lookupFault, 0) ==> r == Err(DbFailure)
    ensures !FailsAt(lookupFault, 0) ==>
      var c := FindCustomerByEmail(old(db.customers), email);
      (c.None? ==> r == Err(NoRows))
      && (c.Some? && hash(pass) != c.value.passHash ==> r == Err(Failure("invalid password")))
      && (c.Some? && hash(pass) == c.value.passHash && token.None? ==> r == Err(Failure("failed generating token")))
      && (c.Some? && hash(pass) == c.value.passHash && token.Some? ==>
            if FailsAt(updateFault, 0) then r == Err(DbFailure)
            else
              r == Ok(Loaded(c.value).(token := token.value))
              && db.customers == SetToken(old(db.customers), c.value.id, token.value))
  {
    var found := CustomerRepo.GetCustomerByEmail(db, email, lookupFault);
    if found.Err? {
      return Err(found.error);
    }
    var c := found.value;
    if hash(pass) != c.passHash {
      return Err(Failure("invalid password"));
    }
    if token.None? {
      return Err(Failure("failed generating token"));
    }
    var updated := CustomerRepo.UpdateCustomerToken(db, c.id, token.value, updateFault);
    if updated.Fail? {
      return Err(updated.error);
    }
    return Ok(c.(token := token.value));
  }

  /** What `ValidateToken` answers for a stored customer table: the lookup's
      `sql.ErrNoRows` for an unknown id, "invalid token" for another token. */
  function TokenCheck(cs: seq<Customer>, customerId: int, token: string): (r: Outcome)
    ensures FindCustomer(cs, customerId).None? ==> r == Fail(NoRows)
    ensures FindCustomer(cs, customerId).Some? && FindCustomer(cs, customerId).value.token != token ==>
      r == Fail(Failure("invalid token"))
    ensures r.Pass? <==> FindCustomer(cs, customerId).Some? && FindCustomer(cs, customerId).value.token == token
  {
    var c := FindCustomer(cs, customerId);
    if c.None? then Fail(NoRows)
    else if c.value.token != token then Fail(Failure("invalid token"))
    else Pass
  }

  /** `ValidateToken`. */
  method ValidateToken(db: CustomerDb, customerId: int, token: string, fault: Fault) returns (r: Outcome)
    ensures FailsAt(fault, 0) ==> r == Fail(DbFailure)
    ensures !FailsAt(fault, 0) ==> r == TokenCheck(db.customers, customerId, token)
  {
    var c := CustomerRepo.GetCustomerByID(db, customerId, fault);
    if c.Err? {
      return Fail(c.error);
    }
    if c.value.token != token {
      return Fail(Failure("invalid token"));
    }
    return Pass;
  }

  /** A customer who signs up with an email no earlier row has is the one a
      login with that email and password finds, and its password check
      passes. */
  lemma SignUpThenLogIn(cs: seq<Customer>, name: string, email: string, phone: string, pass: string,
                        hash: string -> string, token: string, now: int)
    requires FindCustomerByEmail(cs, email).None?
    ensures var row := Customer(|cs| + 1, name, email, phone, hash(pass), token, 0, 0, now);
      FindCustomerByEmail(cs + [row], email) == Some(row) && row.passHash == hash(pass)
  {
    FindByEmailAppend(cs, Customer(|cs| + 1, name, email, phone, hash(pass), token, 0, 0, now), email);
  }

  /** In a table of serial ids, the token a login writes is the one the
      customer is then validated against, and every other customer keeps
      its answer. */
  lemma LoginThenValidate(cs: seq<Customer>, id: int, token: string, other: int, otherToken: string)
    requires SerialCustomers(cs)
    requires FindCustomer(cs, id).Some?
    ensures TokenCheck(SetToken(cs, id, token), id, token) == Pass
    ensures other != id ==> TokenCheck(SetToken(cs, id, token), other, otherToken) == TokenCheck(cs, other, otherToken)
  {
    SetTokenFind(cs, id, token, id);
    SetTokenFind(cs, id, token, other);
  }
}
