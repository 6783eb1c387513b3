/** `postgresPurchasesRepo`. */
module PurchasesRepo {
  import opened Wrappers
  import opened Messages
  import opened CustomerStore

  /** `RecordPurchase`: inserts the purchase and returns it with the new id
      and the database date filled in. */
  method RecordPurchase(db: CustomerDb, p: Purchase, now: int, fault: Fault) returns (r: Result<Purchase>)
    requires db.Valid()
    modifies db
    ensures db.Valid()
    ensures db.customers == old(db.customers) && db.points == old(db.points) && db.transactions == old(db.transactions)
    ensures db.redemptions == old(db.redemptions) && db.outbox == old(db.outbox)
    ensures FailsAt(fault, 0) ==> r == Err(DbFailure) && db.purchases == old(db.purchases)
    ensures !FailsAt(fault, 0) ==>
      var recorded := p.(id := |old(db.purchases)| + 1, purchaseDate := now);
      r == Ok(recorded) && db.purchases == old(db.purchases) + [recorded]
  {
    if FailsAt(fault, 0) {
      return Err(DbFailure);
    }
    var recorded := p.(id := |db.purchases| + 1, purchaseDate := now);
    db.purchases := db.purchases + [recorded];
    return Ok(recorded);
  }
}
