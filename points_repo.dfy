/** `postgresPointsRepo`: the statements on `leal_points`,
    `leal_points_transactions` and the `coins` column of `customer`. */
module PointsRepo {
  import opened Wrappers
  import opened CustomerStore

  /** `GetPointsByCustomerID`: the query, then the row loop that appends each
      scanned row (customer, brand, points; the id is left 0). A customer with
      no rows gets the empty list. */
  method GetPointsByCustomerID(db: CustomerDb, customerId: int, fault: Fault) returns (r: Result<seq<LealPoints>>)
    ensures FailsAt(fault, 0) ==> r == Err(DbFailure)
    ensures !FailsAt(fault, 0) ==> r == Ok(PointsOf(db.points, customerId))
  {
    if FailsAt(fault, 0) {
      return Err(DbFailure);
    }
    var rows := db.points;
    var results: seq<LealPoints> := [];
    for i := 0 to |rows|
      invariant results == PointsOf(rows[..i], customerId)
    {
      assert rows[..i + 1][..i] == rows[..i];
      if rows[i].customerId == customerId {
        results := results + [Selected(rows[i])];
      }
    }
    assert rows[..|rows|] == rows;
    return Ok(results);
  }

  /** `UpdatePoints`: the upsert on the (customer, brand) key, floored at 0. */
  method UpdatePoints(db: CustomerDb, customerId: int, brandId: int, delta: int, fault: Fault) returns (r: Outcome)
    requires db.Valid()
    modifies db
    ensures db.Valid()
    ensures db.customers == old(db.customers) && db.transactions == old(db.transactions)
    ensures db.purchases == old(db.purchases) && db.redemptions == old(db.redemptions) && db.outbox == old(db.outbox)
    ensures FailsAt(fault, 0) ==> r == Fail(DbFailure) && db.points == old(db.points)
    ensures !FailsAt(fault, 0) ==>
      r == Pass && db.points == Upsert(old(db.points), customerId, brandId, delta, |old(db.points)| + 1)
  {
    if FailsAt(fault, 0) {
      return Fail(DbFailure);
    }
    UpsertUnique(db.points, customerId, brandId, delta, |db.points| + 1);
    db.points := Upsert(db.points, customerId, brandId, delta, |db.points| + 1);
    return Pass;
  }

  /** `RecordPointsTransaction`: one ledger row with the next serial id. */
  method RecordPointsTransaction(db: CustomerDb, customerId: int, brandId: int, change: int, reason: string,
                                 fault: Fault) returns (r: Outcome)
    requires db.Valid()
    modifies db
    ensures db.Valid()
    ensures db.customers == old(db.customers) && db.points == old(db.points)
    ensures db.purchases == old(db.purchases) && db.redemptions == old(db.redemptions) && db.outbox == old(db.outbox)
    ensures FailsAt(fault, 0) ==> r == Fail(DbFailure) && db.transactions == old(db.transactions)
    ensures !FailsAt(fault, 0) ==>
      r == Pass
      && db.transactions == old(db.transactions)
           + [Transaction(|old(db.transactions)| + 1, customerId, brandId, change, reason)]
  {
    if FailsAt(fault, 0) {
      return Fail(DbFailure);
    }
    db.transactions := db.transactions + [Transaction(|db.transactions| + 1, customerId, brandId, change, reason)];
    return Pass;
  }

  /** `RecordCoins`: adds to the `coins` column, with no floor. */
  method RecordCoins(db: CustomerDb, customerId: int, coins: int, fault: Fault) returns (r: Outcome)
    requires db.Valid()
    modifies db
    ensures db.Valid()
    ensures db.points == old(db.points) && db.transactions == old(db.transactions)
    ensures db.purchases == old(db.purchases) && db.redemptions == old(db.redemptions) && db.outbox == old(db.outbox)
    ensures FailsAt(fault, 0) ==> r == Fail(DbFailure) && db.customers == old(db.customers)
    ensures !FailsAt(fault, 0) ==> r == Pass && db.customers == AddCoins(old(db.customers), customerId, coins)
  {
    if FailsAt(fault, 0) {
      return Fail(DbFailure);
    }
    db.customers := AddCoins(db.customers, customerId, coins);
    return Pass;
  }

  /** `GetPoinysByCustomerIDAndBrandID` (the Go name's spelling): the balance
      row of (customer, brand), of which only the brand and the points are
      scanned; `sql.ErrNoRows` when there is no row. */
  method GetPoinysByCustomerIDAndBrandID(db: CustomerDb, customerId: int, brandId: int, fault: Fault)
    returns (r: Result<LealPoints>)
    ensures FailsAt(fault, 0) ==> r == Err(DbFailure)
    ensures !FailsAt(fault, 0) && Balance(db.points, customerId, brandId).None? ==> r == Err(NoRows)
    ensures !FailsAt(fault, 0) && Balance(db.points, customerId, brandId).Some? ==>
      r == Ok(LealPoints(0, 0, brandId, Balance(db.points, customerId, brandId).value))
  {
    if FailsAt(fault, 0) {
      return Err(DbFailure);
    }
    var row := FindPoints(db.points, customerId, brandId);
    if row.None? {
      return Err(NoRows);
    }
    return Ok(LealPoints(0, 0, row.value.brandId, row.value.points));
  }
}
