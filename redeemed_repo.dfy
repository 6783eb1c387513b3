/** `postgresRedeemedRepo`. */
module RedeemedRepo {
  import opened Wrappers
  import opened CustomerStore

  /** `RedeemReward`: inserts the redemption and returns it with the new id
      and the database date filled in. */
  method RedeemReward(db: CustomerDb, rd: Redeemed, now: int, fault: Fault) returns (r: Result<Redeemed>)
    requires db.Valid()
    modifies db
    ensures db.Valid()
    ensures db.customers == old(db.customers) && db.points == old(db.points) && db.transactions == old(db.transactions)
    ensures db.purchases == old(db.purchases) && db.outbox == old(db.outbox)
    ensures FailsAt(fault, 0) ==> r == Err(DbFailure) && db.redemptions == old(db.redemptions)
    ensures !FailsAt(fault, 0) ==>
      var recorded := rd.(id := |old(db.redemptions)| + 1, date := now);
      r == Ok(recorded) && db.redemptions == old(db.redemptions) + [recorded]
  {
    if FailsAt(fault, 0) {
      return Err(DbFailure);
    }
    var recorded := rd.(id := |db.redemptions| + 1, date := now);
    db.redemptions := db.redemptions + [recorded];
    return Ok(recorded);
  }
}
